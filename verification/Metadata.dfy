/** Call metadata: a map from keys to lists of values, as accumulated by the
    header and trailer setters of every transport. */
module Metadata {

  type MD = map<string, seq<string>>

  /** The values stored under a key; a missing key reads as the empty list. */
  function Values(md: MD, k: string): seq<string> {
    if k in md then md[k] else []
  }

  /** Per-key concatenation. A key that maps to no values is still present. */
  function Join(a: MD, b: MD): MD {
    map k | k in a.Keys + b.Keys :: Values(a, k) + Values(b, k)
  }

  /** Per-key concatenation of a whole list, oldest first. */
  function JoinAll(mds: seq<MD>): MD {
    if mds == [] then map[] else Join(JoinAll(mds[..|mds| - 1]), mds[|mds| - 1])
  }

  lemma JoinAllAppend(mds: seq<MD>, md: MD)
    ensures JoinAll(mds + [md]) == Join(JoinAll(mds), md)
  {
    assert (mds + [md])[..|mds|] == mds;
  }

  /** The values set for one key over a list of calls, first call first. */
  function AllValues(mds: seq<MD>, k: string): seq<string> {
    if mds == [] then [] else Values(mds[0], k) + AllValues(mds[1..], k)
  }

  lemma {:induction false} AllValuesAppend(mds: seq<MD>, md: MD, k: string)
    ensures AllValues(mds + [md], k) == AllValues(mds, k) + Values(md, k)
  {
    if mds == [] {
      assert [md][1..] == [];
    } else {
      assert (mds + [md])[1..] == mds[1..] + [md];
      AllValuesAppend(mds[1..], md, k);
    }
  }

  /** What JoinAll means: under each key, every value of every call in order. */
  lemma {:induction false} JoinAllValues(mds: seq<MD>, k: string)
    ensures Values(JoinAll(mds), k) == AllValues(mds, k)
  {
    if mds != [] {
      var n := |mds| - 1;
      JoinAllValues(mds[..n], k);
      AllValuesAppend(mds[..n], mds[n], k);
      assert mds[..n] + [mds[n]] == mds;
    }
  }

  /** A key is present exactly when some call mentioned it. */
  lemma {:induction false} JoinAllKeys(mds: seq<MD>, k: string)
    ensures k in JoinAll(mds) <==> exists i :: 0 <= i < |mds| && k in mds[i]
  {
    if mds != [] {
      var n := |mds| - 1;
      JoinAllKeys(mds[..n], k);
      assert k in JoinAll(mds) <==> k in JoinAll(mds[..n]) || k in mds[n];
    }
  }

  /** The state of the accumulation when the keys in done were dealt with. */
  ghost function Joined(held: MD, md: MD, done: set<string>): MD {
    map k | k in held.Keys + done :: Values(held, k) + (if k in done then Values(md, k) else [])
  }

  lemma JoinedNone(held: MD, md: MD)
    ensures Joined(held, md, {}) == held
  {
    forall k | k in held ensures Joined(held, md, {})[k] == held[k] {
      assert held[k] + [] == held[k];
    }
  }

  lemma JoinedMore(held: MD, md: MD, done: set<string>, k: string)
    requires k in md && k !in done
    ensures var r := Joined(held, md, done);
            r[k := Values(r, k) + md[k]] == Joined(held, md, done + {k})
  {
    assert Values(held, k) + [] == Values(held, k);
  }

  lemma JoinedAll(held: MD, md: MD)
    ensures Joined(held, md, md.Keys) == Join(held, md)
  {
  }

  /** The accumulation loop of the setters: for each key of `md`, in whatever
      order the map yields them, append its values to those already held. */
  method Append(held: MD, md: MD) returns (r: MD)
    ensures r == Join(held, md)
  {
    hide Joined, Join, Values;
    r := held;
    JoinedNone(held, md);
    var todo := md.Keys;
    ghost var done: set<string> := {};
    while todo != {}
      invariant todo <= md.Keys && done == md.Keys - todo
      invariant r == Joined(held, md, done)
      decreases |todo|
    {
      var k :| k in todo;
      JoinedMore(held, md, done, k);
      r := r[k := Values(r, k) + md[k]];
      todo, done := todo - {k}, done + {k};
    }
    assert done == md.Keys;
    JoinedAll(held, md);
  }
}
