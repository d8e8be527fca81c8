/** The reading and printing assumptions of the digest proofs can be met together. */
module FaithfulReading {
  import opened JsonValues
  import opened CanonicalJson
  import opened ReleaseDigests
  import opened DigestFixedPoint

  /** A printing that keeps key order and is never mistaken for a canonical text. */
  function Plainly(j: Json): string { "+" + (Dump(j) + "\n") }

  ghost predicate CanonicalOf(t: string, j: Json) { WellFormed(j) && Canonical(j) == t }

  ghost predicate PlainOf(t: string, j: Json) { WellFormed(j) && Plainly(j) == t }

  ghost function Read(t: string): Option<Json> {
    if exists j :: CanonicalOf(t, j) then
      var j :| CanonicalOf(t, j);
      Some(Canon(j))
    else if exists j :: PlainOf(t, j) then
      var j :| PlainOf(t, j);
      Some(j)
    else None
  }

  lemma {:induction false} PlainlyInjective(a: Json, b: Json)
    requires Plainly(a) == Plainly(b)
    ensures a == b
  {
    assert Plainly(a)[1..] == Dump(a) + "\n" && Plainly(b)[1..] == Dump(b) + "\n";
    DumpDecodes(a, b, "\n", "\n");
  }

  lemma {:induction false} PlainlyApart(a: Json, b: Json)
    ensures Canonical(a) != Plainly(b)
  {
    DumpOpens(Canon(a), "\n");
    assert Plainly(b)[0] == '+';
  }

  /** Some reader and printer meet all the assumptions, whatever the digest function and the file names. */
  lemma {:induction false} FaithfulExists(hash: string -> string, at: string -> string, manifestAt: string)
    ensures Faithful(Env(hash, t => Read(t), Plainly, at, manifestAt))
  {
    var env := Env(hash, t => Read(t), Plainly, at, manifestAt);
    forall j | WellFormed(j) ensures env.load(Canonical(j)) == Some(Canon(j)) {
      assert CanonicalOf(Canonical(j), j);
      var k :| CanonicalOf(Canonical(j), k) && Read(Canonical(j)) == Some(Canon(k));
      CanonicalInjective(j, k);
    }
    forall j | WellFormed(j) ensures env.load(env.pretty(j)) == Some(j) {
      assert PlainOf(Plainly(j), j);
      forall k ensures !CanonicalOf(Plainly(j), k) {
        PlainlyApart(k, j);
      }
      var k :| PlainOf(Plainly(j), k) && Read(Plainly(j)) == Some(k);
      PlainlyInjective(j, k);
    }
    forall t | env.load(t).Some? ensures WellFormed(env.load(t).value) {
      if exists j :: CanonicalOf(t, j) {
        var j :| CanonicalOf(t, j) && Read(t) == Some(Canon(j));
        CanonWellFormed(j);
      }
    }
  }
}
