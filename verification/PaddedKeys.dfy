/**
 * Repository keys with surrounding white space: they name roots of their own, but the record of the stripped name, so
 * sorting the roots does not sort the locks.
 */
module PaddedKeys {
  import opened Filtering
  import opened Ordering
  import opened Strings
  import opened RepoRoots
  import opened RepoLocks
  import opened RepoLockCircles

  /** A publication of these repositories, by an API object that knows nothing else. */
  function PlainSite(): Site {
    Site(None, [], [], (base, key) => base + "/" + key, path => path, (flow, step) => None)
  }

  function Publication(keys: seq<string>): Argument {
    Fields(false, None, None, Some("/ws"), keys, None, None, None, None, None)
  }

  function Child(name: string): Root { "/ws" + "/" + name }

  lemma PublicationNames(keys: seq<string>, r: Root)
    ensures NamedBy(PlainSite(), [Publication(keys)], r) <==> exists k :: k in keys && r == Child(k)
  {
    var v := Publication(keys);
    assert NamedBy(PlainSite(), [v], r) <==> Names(PlainSite(), v, r) by {
      assert v in [v];
    }
    assert Names(PlainSite(), v, r) <==> NamesInWorkspace(PlainSite(), v, r);
    assert NamesInWorkspace(PlainSite(), v, r) <==>
      exists k :: k in keys && r == PlainSite().resolve(PlainSite().join("/ws", k));
    forall k ensures PlainSite().resolve(PlainSite().join("/ws", k)) == Child(k) {}
  }

  /** The sorted roots of a publication of two repositories, and both of them found. */
  function TwoRoots(first: string, second: string): Call {
    Call([Child(first), Child(second)], {Child(first), Child(second)})
  }

  lemma TwoRootsOf(first: string, second: string)
    requires first != "" && second != "" && first[0] < second[0]
    ensures Ascending(TwoRoots(first, second).roots)
    ensures forall r :: r in TwoRoots(first, second).roots <==>
              NamedBy(PlainSite(), [Publication([second, first])], r)
  {
    SamePrefix("/ws" + "/", first, second);
    forall r ensures r in TwoRoots(first, second).roots <==> NamedBy(PlainSite(), [Publication([second, first])], r) {
      PublicationNames([second, first], r);
      assert forall k :: k in [second, first] <==> k == second || k == first;
    }
  }

  lemma RecordOf(name: string)
    requires name != "" && '/' !in name
    ensures RecordName(Some("/ws"), Child(name)) == NormalKey(name)
  {
    var base := Beneath("/ws");
    assert base == "/ws" + "/" && Child(name) == base + name;
    assert Child(name)[|base|..] == name;
  }

  lemma LocksOfTwo(first: string, second: string)
    requires first != "" && '/' !in first && second != "" && '/' !in second
    requires NormalKey(first).Some? && NormalKey(second).Some?
    ensures LockList(Some("/ws"), TwoRoots(first, second)) == [NormalKey(first).value, NormalKey(second).value]
  {
    var call := TwoRoots(first, second);
    FoundLock(call, first);
    FoundLock(call, second);
    CollectTwo(LockOf(Some("/ws"), call.found), Child(first), Child(second));
  }

  lemma FoundLock(call: Call, name: string)
    requires name != "" && '/' !in name && Child(name) in call.found
    ensures LockOf(Some("/ws"), call.found)(Child(name)) == NormalKey(name)
  {
    RecordOf(name);
  }

  lemma Keys()
    ensures NormalKey("a") == Some("a") && NormalKey("b") == Some("b") && NormalKey(" b") == Some("b")
  {
    assert " b"[1..] == "b";
  }

  lemma {:induction false} SamePrefix(p: string, a: string, b: string)
    requires StringLt(a, b)
    ensures StringLt(p + a, p + b)
  {
    if p == "" {
      assert p + a == a && p + b == b;
    } else {
      assert (p + a)[1..] == p[1..] + a && (p + b)[1..] == p[1..] + b;
      SamePrefix(p[1..], a, b);
    }
  }

  /**
   * Publishing the repositories "a" and " b" locks the records b and a, in this order; publishing "b" and "a" locks
   * them the other way round. In both cases the roots are sorted.
   */
  lemma PaddedKeyReversesLocks()
    ensures Ascending(TwoRoots(" b", "a").roots) && Ascending(TwoRoots("a", "b").roots)
    ensures forall r :: r in TwoRoots(" b", "a").roots <==> NamedBy(PlainSite(), [Publication(["a", " b"])], r)
    ensures forall r :: r in TwoRoots("a", "b").roots <==> NamedBy(PlainSite(), [Publication(["b", "a"])], r)
    ensures LockList(Some("/ws"), TwoRoots(" b", "a")) == ["b", "a"]
    ensures LockList(Some("/ws"), TwoRoots("a", "b")) == ["a", "b"]
  {
    Keys();
    TwoRootsOf(" b", "a");
    TwoRootsOf("a", "b");
    LocksOfTwo(" b", "a");
    LocksOfTwo("a", "b");
  }

  lemma CrossedCircle(a: string, b: string, lanes: seq<seq<Lane>>) returns (moves: seq<Move>)
    requires a != b && |lanes| == 2
    ensures CircularWait(Run(Start([[b, a], [a, b]], lanes), moves), [0, 1])
  {
    var locks := [[b, a], [a, b]];
    assert locks[0][..1] == [b] && locks[1][..1] == [a];
    assert After(0, 2) == 1 && After(1, 2) == 0;
    assert WantsNext(locks, [0, 1], [1, 1], 0) && WantsNext(locks, [0, 1], [1, 1], 1);
    moves := TangleIsCircle(locks, lanes, [0, 1], [1, 1]);
  }

  lemma PaddedLockLists()
    ensures LockLists(Some("/ws"), [TwoRoots(" b", "a"), TwoRoots("a", "b")]) == [["b", "a"], ["a", "b"]]
  {
    PaddedKeyReversesLocks();
  }

  /** Two publications of the same two repositories, one with a padded key, can come to wait for each other. */
  lemma PaddedKeyCircularWait(lanes: seq<seq<Lane>>) returns (moves: seq<Move>)
    requires |lanes| == 2
    ensures
      var locks := LockLists(Some("/ws"), [TwoRoots(" b", "a"), TwoRoots("a", "b")]);
      |locks| == 2 && CircularWait(Run(Start(locks, lanes), moves), [0, 1])
  {
    PaddedLockLists();
    moves := CrossedCircle("a", "b", lanes);
  }
}
