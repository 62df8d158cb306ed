/** The loops of `classify`. */
module GateClassifier {
  import opened GateScope

  /** The rows a lane tree's helper feeds. */
  method RouteLanes(path: string, lanes: seq<Lane>) returns (added: Acc)
    ensures added == LanesAcc(path, lanes)
  {
    hide LaneAcc, Merge;
    added := Nothing();
    for i := 0 to |lanes|
      invariant added == LanesAcc(path, lanes[..i])
    {
      assert lanes[..i + 1][..i] == lanes[..i];
      added := Merge(added, LaneAcc(path, lanes[i]));
    }
    assert lanes[..|lanes|] == lanes;
  }

  /** `_route_measured`: what each reader left of a measured matrix adds. */
  method RouteReaders(r: Rules, readers: seq<string>) returns (added: Acc)
    ensures added == ReadersAcc(r, readers)
  {
    hide RootAcc, Merge;
    added := Nothing();
    for i := 0 to |readers|
      invariant added == ReadersAcc(r, readers[..i])
    {
      assert readers[..i + 1][..i] == readers[..i];
      if r.readerFamily(readers[i]) {
        added := Merge(added, Nothing().(guards := {readers[i]}));
      } else {
        added := Merge(added, RootAcc(r, readers[i]));
      }
    }
    assert readers[..|readers|] == readers;
  }

  /** One turn of the loop over the kept changes. */
  method RouteChange(r: Rules, c: Change) returns (added: Acc)
    ensures added == ChangeAcc(r, c)
  {
    hide TestAcc, SrcAcc, Merge, LanesAcc, ReadersAcc, Items;
    var path := c.path;
    var first := Nothing().(paths := {path}, specialTip := Items(r.captures(path)));
    if r.isSrc(path) {
      first := first.(bed := Items(r.bedLanes(r.srcKey(path))));
    }
    var lanes := RouteLanes(path, r.owning(path));
    var cls := r.classOf(path);
    var routed;
    if cls.None? {
      routed := Nothing().(unknown := {path}, full := {(path, NoRow)}, classes := {Full});
    } else if r.readers(path).Some? {
      var readers := r.readers(path).value;
      var toReaders := RouteReaders(r, readers);
      routed := Merge(toReaders, Nothing().(classes := {TestsLeaf}, full := if readers == [] then {(path, NoReader)} else {}));
    } else if cls.value == TestsLeaf {
      routed := TestAcc(r, c);
    } else if cls.value == SrcLeaf {
      routed := SrcAcc(r, path);
    } else {
      routed := Nothing().(classes := {cls.value});
      if cls.value == Escalate && r.isSrc(path) && r.nested(path) {
        routed := routed.(packages := {r.srcKey(path)});
      }
    }
    return Merge(Merge(first, lanes), routed);
  }

  /** `_outermost`: drop every root nested under another. */
  method DropNested(roots: set<string>) returns (outer: set<string>)
    ensures outer == Outermost(roots)
  {
    outer := {};
    var left := roots;
    while left != {}
      invariant left <= roots
      invariant outer == set root | root in roots - left && !exists other :: other in roots && Under(root, other)
    {
      var root :| root in left;
      left := left - {root};
      if !exists other :: other in roots && Under(root, other) {
        outer := outer + {root};
      }
    }
  }

  /** Classify a diff's changes. */
  method ClassifyChanges(r: Rules, changes: seq<Change>) returns (s: Scope)
    ensures s == Classify(r, changes)
  {
    hide ChangeAcc, Merge, Outermost, Present;
    var acc := Nothing();
    for i := 0 to |changes|
      invariant acc == Collected(r, changes[..i])
    {
      assert changes[..i + 1][..i] == changes[..i];
      if r.releaseOwned(changes[i]) {
        acc := Merge(acc, Nothing().(classes := {NoClass}));
      } else {
        var added := RouteChange(r, changes[i]);
        acc := Merge(acc, added);
      }
    }
    assert changes[..|changes|] == changes;
    if |acc.packages| > MAX_SRC_PACKAGES {
      acc := acc.(classes := acc.classes - {SrcLeaf} + {Escalate}, full := acc.full + {("", TooManyPackages)});
    }
    if TestsStructural in acc.classes {
      acc := acc.(classes := acc.classes - {TestsLeaf});
    }
    var quick := {};
    if !FullGate(acc) {
      quick := DropNested(acc.quick);
    }
    return Scope(acc, Present(r, changes), quick);
  }
}
