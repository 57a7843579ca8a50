/** The inventory of configuration keys: leaf paths of nested appsettings, and the merge of an existing
    inventory with a fresh scan. */
module ConfigInventory {
  import opened Text

  // ---- flattening ----

  /** A parsed appsettings value: an object's members in order, or anything else. */
  datatype Node = Scalar | Section(members: seq<Member>)
  datatype Member = Member(key: string, value: Node)

  const SKIP_ROOTS := {"Logging", "AllowedHosts", "Kestrel", "ConnectionStrings"}
  const KEEP_CHILDREN_OF := {"ConnectionStrings"}

  predicate SkippedRoot(path: string) {
    var root := Split(path, ':')[0];
    root in SKIP_ROOTS && root !in KEEP_CHILDREN_OF
  }

  /** A member whose value has members of its own is not a leaf. */
  predicate Nested(m: Member) {
    m.value.Section? && m.value.members != []
  }

  /** The roots that are dropped: these three, and whatever stands below them; connection strings are kept. */
  lemma SkippedRootIs(path: string)
    ensures SkippedRoot(path)
       <==> exists root | root in {"Logging", "AllowedHosts", "Kestrel"} :: path == root || root + ":" <= path
  {
    RootIs(path, "Logging");
    RootIs(path, "AllowedHosts");
    RootIs(path, "Kestrel");
  }

  lemma RootIs(path: string, root: string)
    requires ':' !in root
    ensures Split(path, ':')[0] == root <==> path == root || root + ":" <= path
  {
    var pieces := Split(path, ':');
    JoinSplitFrom("", path, ':');
    assert "" + path == path && path == Join(pieces, ":");
    assert |pieces| > 1 ==> path == pieces[0] + ":" + Join(pieces[1..], ":");
    if path == root {
      SplitPlain(root, ':');
    }
    if root + ":" <= path {
      assert path == root + [':'] + path[|root| + 1..];
      SplitAtSeparator(root, path[|root| + 1..], ':');
    }
  }

  function PathOf(prefix: string, key: string): string {
    if prefix != "" then prefix + ":" + key else key
  }

  function Flat(members: seq<Member>, prefix: string): seq<string>
    decreases members, 1
  {
    if members == [] then [] else Flat(Init(members), prefix) + FlatMember(Last(members), prefix)
  }

  function FlatMember(m: Member, prefix: string): seq<string>
    decreases m, 0
  {
    var path := PathOf(prefix, m.key);
    if prefix == "" && SkippedRoot(path) then []
    else if Nested(m) then Flat(m.value.members, path)
    else [path]
  }

  /** `flatten_appsettings`. */
  method FlattenAppsettings(obj: Node, prefix: string) returns (keys: seq<string>)
    ensures keys == if obj.Section? then Flat(obj.members, prefix) else []
    decreases obj
  {
    keys := [];
    if !obj.Section? {
      return;
    }
    for i := 0 to |obj.members|
      invariant keys == Flat(obj.members[..i], prefix)
    {
      var m := obj.members[i];
      assert Init(obj.members[..i + 1]) == obj.members[..i] && Last(obj.members[..i + 1]) == m;
      var path := if prefix != "" then prefix + ":" + m.key else m.key;
      if prefix == "" && SkippedRoot(path) { continue; }
      if m.value.Section? && m.value.members != [] {
        var inner := FlattenAppsettings(m.value, path);
        keys := keys + inner;
      } else {
        keys := keys + [path];
      }
    }
    assert obj.members[..|obj.members|] == obj.members;
  }

  /** Following `path` from these members, key by key, ends at a leaf. */
  predicate LeadsToLeaf(members: seq<Member>, path: seq<string>)
    decreases path
  {
    path != [] && exists i | 0 <= i < |members| ::
      members[i].key == path[0]
      && if |path| == 1 then !Nested(members[i]) else Nested(members[i]) && LeadsToLeaf(members[i].value.members, path[1..])
  }

  /** The key paths of the leaves, in document order. */
  function LeafPaths(members: seq<Member>): seq<seq<string>>
    decreases members, 1
  {
    if members == [] then [] else LeafPaths(Init(members)) + MemberPaths(Last(members))
  }

  function MemberPaths(m: Member): seq<seq<string>>
    decreases m, 0
  {
    if Nested(m) then Under(m.key, LeafPaths(m.value.members)) else [[m.key]]
  }

  function Under(key: string, paths: seq<seq<string>>): (r: seq<seq<string>>)
    ensures |r| == |paths| && forall i | 0 <= i < |r| :: r[i] == [key] + paths[i]
  {
    seq(|paths|, i requires 0 <= i < |paths| => [key] + paths[i])
  }

  function Joined(prefix: string, paths: seq<seq<string>>): (r: seq<string>)
    ensures |r| == |paths| && forall i | 0 <= i < |r| :: r[i] == PathOf(prefix, Join(paths[i], ":"))
  {
    seq(|paths|, i requires 0 <= i < |paths| => PathOf(prefix, Join(paths[i], ":")))
  }

  /** The paths whose first key is not a skipped root. */
  function Kept(paths: seq<seq<string>>): seq<seq<string>> {
    if paths == [] then []
    else Kept(Init(paths)) + if Last(paths) != [] && SkippedRoot(Last(paths)[0]) then [] else [Last(paths)]
  }

  lemma {:induction false} LeafPathsAreExact(members: seq<Member>, path: seq<string>)
    ensures path in LeafPaths(members) <==> LeadsToLeaf(members, path)
    decreases members, 1
  {
    if members != [] {
      var front, m := Init(members), Last(members);
      LeafPathsAreExact(front, path);
      MemberPathsAreExact(m, path);
      LeadsInOne(members, path);
    }
  }

  lemma {:induction false} MemberPathsAreExact(m: Member, path: seq<string>)
    ensures path in MemberPaths(m) <==> LeadsToLeaf([m], path)
    decreases m, 0
  {
    if path != [] {
      assert path == [path[0]] + path[1..];
      assert LeadsToLeaf([m], path) <==>
        ([m][0].key == path[0]
         && if |path| == 1 then !Nested(m) else Nested(m) && LeadsToLeaf(m.value.members, path[1..]));
    }
    if Nested(m) {
      var inner := LeafPaths(m.value.members);
      if path in Under(m.key, inner) {
        var i :| 0 <= i < |inner| && path == [m.key] + inner[i];
        LeafPathsAreExact(m.value.members, inner[i]);
        assert path[1..] == inner[i];
      }
      if LeadsToLeaf([m], path) {
        LeafPathsAreExact(m.value.members, path[1..]);
        var i :| 0 <= i < |inner| && path[1..] == inner[i];
        assert Under(m.key, inner)[i] == path;
      }
    } else {
      assert path in [[m.key]] <==> path == [m.key];
    }
  }

  lemma LeadsInOne(members: seq<Member>, path: seq<string>)
    requires members != []
    ensures LeadsToLeaf(members, path) <==> LeadsToLeaf(Init(members), path) || LeadsToLeaf([Last(members)], path)
  {
    var front, single := Init(members), [Last(members)];
    assert forall i | 0 <= i < |front| :: front[i] == members[i];
    assert single[0] == members[|members| - 1];
  }

  lemma {:induction false} FlatUnderPrefix(members: seq<Member>, prefix: string)
    requires prefix != ""
    ensures Flat(members, prefix) == Joined(prefix, LeafPaths(members))
    decreases members, 1
  {
    if members != [] {
      FlatUnderPrefix(Init(members), prefix);
      FlatMemberUnder(Last(members), prefix);
    }
  }

  lemma {:induction false} FlatMemberUnder(m: Member, prefix: string)
    requires prefix != "" || (m.key != "" && !SkippedRoot(m.key))
    ensures FlatMember(m, prefix) == Joined(prefix, MemberPaths(m))
    decreases m, 0
  {
    var path := PathOf(prefix, m.key);
    if Nested(m) {
      var inner := LeafPaths(m.value.members);
      FlatUnderPrefix(m.value.members, path);
      forall i | 0 <= i < |inner|
        ensures PathOf(path, Join(inner[i], ":")) == PathOf(prefix, Join([m.key] + inner[i], ":"))
      {
        LeafPathsAreExact(m.value.members, inner[i]);
        assert inner[i] in inner;
        assert ([m.key] + inner[i])[1..] == inner[i];
      }
    } else {
      assert Join([m.key], ":") == m.key;
    }
  }

  lemma {:induction false} KeptConcat(a: seq<seq<string>>, b: seq<seq<string>>)
    ensures Kept(a + b) == Kept(a) + Kept(b)
  {
    if b == [] {
      assert a + b == a;
    } else {
      KeptConcat(a, Init(b));
      assert Init(a + b) == a + Init(b) && Last(a + b) == Last(b);
    }
  }

  lemma {:induction false} KeptOfMember(key: string, paths: seq<seq<string>>)
    requires forall i | 0 <= i < |paths| :: paths[i] != [] && paths[i][0] == key
    ensures Kept(paths) == if SkippedRoot(key) then [] else paths
  {
    if paths != [] {
      KeptOfMember(key, Init(paths));
      assert Last(paths) == paths[|paths| - 1] && paths == Init(paths) + [Last(paths)];
    }
  }

  lemma MemberPathsStart(m: Member)
    ensures forall p | p in MemberPaths(m) :: p != [] && p[0] == m.key
  {
  }

  lemma JoinedConcat(prefix: string, a: seq<seq<string>>, b: seq<seq<string>>)
    ensures Joined(prefix, a + b) == Joined(prefix, a) + Joined(prefix, b)
  {
  }

  /** An object under an empty root key: its members are flattened as if they were roots. */
  predicate Hidden(m: Member) {
    m.key == "" && Nested(m)
  }

  predicate NoneHidden(members: seq<Member>) {
    forall i | 0 <= i < |members| :: !Hidden(members[i])
  }

  lemma FlatMemberTop(m: Member)
    requires !Hidden(m)
    ensures FlatMember(m, "") == Joined("", Kept(MemberPaths(m)))
  {
    KeptOfOne(m);
    if m.key == "" {
      EmptyRoot();
      assert Join([""], ":") == "";
    } else if !SkippedRoot(m.key) {
      FlatMemberUnder(m, "");
    }
  }

  lemma KeptOfOne(m: Member)
    ensures Kept(MemberPaths(m)) == if SkippedRoot(m.key) then [] else MemberPaths(m)
  {
    MemberPathsStart(m);
    assert forall i | 0 <= i < |MemberPaths(m)| :: MemberPaths(m)[i] in MemberPaths(m);
    KeptOfMember(m.key, MemberPaths(m));
  }

  lemma EmptyRoot()
    ensures !SkippedRoot("")
  {
    SplitPlain("", ':');
  }

  lemma JoinedLeafPaths(members: seq<Member>)
    requires members != []
    ensures Joined("", Kept(LeafPaths(members)))
         == Joined("", Kept(LeafPaths(Init(members)))) + Joined("", Kept(MemberPaths(Last(members))))
  {
    var front, own := LeafPaths(Init(members)), MemberPaths(Last(members));
    KeptConcat(front, own);
    JoinedConcat("", Kept(front), Kept(own));
  }

  lemma {:induction false} FlatAsLeafPaths(members: seq<Member>)
    requires NoneHidden(members)
    ensures Flat(members, "") == Joined("", Kept(LeafPaths(members)))
  {
    if members != [] {
      var front, m := Init(members), Last(members);
      FlatAsLeafPaths(front);
      FlatMemberTop(m);
      JoinedLeafPaths(members);
    }
  }

  function TextLength(lines: seq<string>): nat {
    if lines == [] then 0 else TextLength(Init(lines)) + |Last(lines)|
  }

  lemma {:induction false} TextLengthConcat(a: seq<string>, b: seq<string>)
    ensures TextLength(a + b) == TextLength(a) + TextLength(b)
  {
    if b == [] {
      assert a + b == a;
    } else {
      TextLengthConcat(a, Init(b));
      assert Init(a + b) == a + Init(b) && Last(a + b) == Last(b);
    }
  }

  /** Under an empty key every path is one colon longer. */
  lemma {:induction false} UnderEmptyKey(paths: seq<seq<string>>)
    requires forall i | 0 <= i < |paths| :: paths[i] != []
    ensures TextLength(Joined("", Under("", paths))) == TextLength(Joined("", paths)) + |paths|
  {
    if paths != [] {
      var front, p := Init(paths), Last(paths);
      UnderEmptyKey(front);
      assert ([""] + p)[1..] == p && Join([""] + p, ":") == ":" + Join(p, ":");
      var longer, shorter := Joined("", Under("", paths)), Joined("", paths);
      assert Init(longer) == Joined("", Under("", front)) && Last(longer) == ":" + Join(p, ":");
      assert Init(shorter) == Joined("", front) && Last(shorter) == Join(p, ":");
    }
  }

  lemma {:induction false} KeptIsShorter(paths: seq<seq<string>>)
    ensures TextLength(Joined("", Kept(paths))) <= TextLength(Joined("", paths))
  {
    if paths != [] {
      var front, p := Init(paths), Last(paths);
      KeptIsShorter(front);
      assert paths == front + [p];
      JoinedConcat("", front, [p]);
      if p != [] && SkippedRoot(p[0]) {
        assert Kept(paths) == Kept(front);
        NoLonger(Joined("", Kept(front)), Joined("", front), [], Joined("", [p]));
        assert Joined("", Kept(front)) + [] == Joined("", Kept(front));
      } else {
        JoinedConcat("", Kept(front), [p]);
        NoLonger(Joined("", Kept(front)), Joined("", front), Joined("", [p]), Joined("", [p]));
      }
    }
  }

  lemma NoLonger(a: seq<string>, x: seq<string>, b: seq<string>, y: seq<string>)
    requires TextLength(a) <= TextLength(x) && TextLength(b) <= TextLength(y)
    ensures TextLength(a + b) <= TextLength(x + y)
    ensures TextLength(a + b) == TextLength(x + y) ==> TextLength(a) == TextLength(x) && TextLength(b) == TextLength(y)
  {
    TextLengthConcat(a, b);
    TextLengthConcat(x, y);
  }

  lemma {:induction false} SomeLeaf(members: seq<Member>)
    requires members != []
    ensures LeafPaths(members) != []
    decreases members
  {
    var m := Last(members);
    if Nested(m) {
      SomeLeaf(m.value.members);
    }
  }

  lemma {:induction false} HiddenIsShorter(m: Member)
    requires Hidden(m)
    ensures TextLength(FlatMember(m, "")) < TextLength(Joined("", Kept(MemberPaths(m))))
    decreases m, 0
  {
    var inner := LeafPaths(m.value.members);
    EmptyRoot();
    KeptOfOne(m);
    FlatIsShorter(m.value.members);
    KeptIsShorter(inner);
    SomeLeaf(m.value.members);
    forall i | 0 <= i < |inner|
      ensures inner[i] != []
    {
      assert inner[i] in inner;
      LeafPathsAreExact(m.value.members, inner[i]);
    }
    UnderEmptyKey(inner);
  }

  lemma {:induction false} MemberIsShorter(m: Member)
    ensures var flat, joined := TextLength(FlatMember(m, "")), TextLength(Joined("", Kept(MemberPaths(m))));
            flat <= joined && (flat == joined ==> !Hidden(m))
    decreases m, 1
  {
    if Hidden(m) { HiddenIsShorter(m); } else { FlatMemberTop(m); }
  }

  lemma NoneHiddenNext(members: seq<Member>)
    requires members != []
    ensures NoneHidden(Init(members)) && !Hidden(Last(members)) ==> NoneHidden(members)
  {
    assert forall i | 0 <= i < |members| - 1 :: members[i] == Init(members)[i];
  }

  /** So the result is shorter than the joined leaf paths exactly when such an object is there. */
  lemma {:induction false} FlatIsShorter(members: seq<Member>)
    ensures var flat, joined := TextLength(Flat(members, "")), TextLength(Joined("", Kept(LeafPaths(members))));
            flat <= joined && (flat == joined ==> NoneHidden(members))
    decreases members, 2
  {
    if members != [] {
      var front, m := Init(members), Last(members);
      FlatIsShorter(front);
      MemberIsShorter(m);
      JoinedLeafPaths(members);
      NoLonger(Flat(front, ""), Joined("", Kept(LeafPaths(front))), FlatMember(m, ""), Joined("", Kept(MemberPaths(m))));
      NoneHiddenNext(members);
    }
  }

  /** The keys found are the colon-joined paths of the leaves outside the skipped roots, in order, exactly when no
      object stands under an empty root key. */
  lemma FlatIsLeafPaths(members: seq<Member>)
    ensures Flat(members, "") == Joined("", Kept(LeafPaths(members)))
       <==> forall i | 0 <= i < |members| :: members[i].key == "" ==> !Nested(members[i])
  {
    assert NoneHidden(members) <==> forall i | 0 <= i < |members| :: members[i].key == "" ==> !Nested(members[i]);
    FlatIsShorter(members);
    if NoneHidden(members) {
      FlatAsLeafPaths(members);
    }
  }

  /** No object repeats a key, and no key holds a colon. */
  predicate Regular(members: seq<Member>)
    decreases members
  {
    && (forall i, j | 0 <= i < j < |members| :: members[i].key != members[j].key)
    && (forall i | 0 <= i < |members| :: ':' !in members[i].key)
    && (forall i | 0 <= i < |members| && members[i].value.Section? :: Regular(members[i].value.members))
  }

  predicate ColonFree(paths: seq<seq<string>>) {
    forall p, k | p in paths && k in p :: ':' !in k
  }

  lemma {:induction false} DistinctLeafPaths(members: seq<Member>)
    requires Regular(members)
    ensures NoDuplicates(LeafPaths(members)) && ColonFree(LeafPaths(members))
    ensures forall p | p in LeafPaths(members) :: p != [] && exists i | 0 <= i < |members| :: members[i].key == p[0]
    decreases members, 1
  {
    if members != [] {
      var front, m := Init(members), Last(members);
      assert m == members[|members| - 1];
      DistinctLeafPaths(front);
      DistinctMemberPaths(m);
      var a, b := LeafPaths(front), MemberPaths(m);
      forall i, j | 0 <= i < |a| && 0 <= j < |b|
        ensures a[i] != b[j]
      {
        assert a[i] in a && b[j] in b;
      }
    }
  }

  lemma {:induction false} DistinctMemberPaths(m: Member)
    requires ':' !in m.key && (m.value.Section? ==> Regular(m.value.members))
    ensures NoDuplicates(MemberPaths(m)) && ColonFree(MemberPaths(m))
    ensures forall p | p in MemberPaths(m) :: p != [] && p[0] == m.key
    decreases m, 0
  {
    if Nested(m) {
      var inner := LeafPaths(m.value.members);
      DistinctLeafPaths(m.value.members);
      forall i, j | 0 <= i < j < |inner|
        ensures MemberPaths(m)[i] != MemberPaths(m)[j]
      {
        assert MemberPaths(m)[i][1..] == inner[i] && MemberPaths(m)[j][1..] == inner[j];
      }
    }
  }

  /** Kept paths keep their order, so they stay distinct. */
  lemma {:induction false} KeptIsSub(paths: seq<seq<string>>)
    ensures forall p :: p in Kept(paths) <==> p in paths && (p == [] || !SkippedRoot(p[0]))
    ensures NoDuplicates(paths) ==> NoDuplicates(Kept(paths))
  {
    if paths != [] {
      KeptIsSub(Init(paths));
      assert forall p :: p in paths <==> p in Init(paths) || p == Last(paths);
    }
  }

  /** A colon-free path can be read off its joined form. */
  lemma PathReadBack(p: seq<string>)
    requires p != [] && forall k | k in p :: ':' !in k
    ensures Split(Join(p, ":"), ':') == p
  {
    forall i | 0 <= i < |p| ensures ':' !in p[i] { assert p[i] in p; }
    JoinSplit(p, ':');
  }

  lemma JoinedFinds(paths: seq<seq<string>>, path: seq<string>)
    requires ColonFree(paths) && (forall p | p in paths :: p != [])
    requires path != [] && forall k | k in path :: ':' !in k
    ensures Join(path, ":") in Joined("", paths) <==> path in paths
  {
    PathReadBack(path);
    forall i | 0 <= i < |paths|
      ensures Joined("", paths)[i] == Join(path, ":") <==> paths[i] == path
    {
      assert paths[i] in paths;
      PathReadBack(paths[i]);
    }
  }

  lemma JoinedDistinct(paths: seq<seq<string>>)
    requires ColonFree(paths) && NoDuplicates(paths) && forall p | p in paths :: p != []
    ensures NoDuplicates(Joined("", paths))
  {
    forall i, j | 0 <= i < j < |paths|
      ensures Joined("", paths)[i] != Joined("", paths)[j]
    {
      assert paths[i] in paths && paths[j] in paths;
      PathReadBack(paths[i]);
      PathReadBack(paths[j]);
    }
  }

  /** Where keys are distinct and free of colons, no two leaves get the same path. */
  lemma FlatIsDistinct(members: seq<Member>)
    requires Regular(members) && forall i | 0 <= i < |members| :: members[i].key == "" ==> !Nested(members[i])
    ensures NoDuplicates(Flat(members, ""))
  {
    FlatIsLeafPaths(members);
    DistinctLeafPaths(members);
    KeptIsSub(LeafPaths(members));
    JoinedDistinct(Kept(LeafPaths(members)));
  }

  /** And a path names a leaf: it is found exactly when following its keys leads to one outside the skipped roots. */
  lemma FlatFindsLeaves(members: seq<Member>, path: seq<string>)
    requires Regular(members) && (forall i | 0 <= i < |members| :: members[i].key == "" ==> !Nested(members[i]))
    requires path != [] && forall k | k in path :: ':' !in k
    ensures Join(path, ":") in Flat(members, "") <==> LeadsToLeaf(members, path) && !SkippedRoot(path[0])
  {
    FlatIsLeafPaths(members);
    DistinctLeafPaths(members);
    LeafPathsAreExact(members, path);
    KeptIsSub(LeafPaths(members));
    JoinedFinds(Kept(LeafPaths(members)), path);
  }

  /** The conditions are needed: under an empty root key the skipped roots apply one level down... */
  lemma EmptyKeyExample()
    ensures var members := [Member("", Section([Member("Logging", Scalar)]))];
      Flat(members, "") == [] && LeadsToLeaf(members, ["", "Logging"]) && !SkippedRoot("")
  {
    var inner := [Member("Logging", Scalar)];
    var members := [Member("", Section(inner))];
    SplitPlain("Logging", ':');
    SplitPlain("", ':');
    assert Init(inner) == [] && Init(members) == [] && PathOf("", "") == "";
    assert FlatMember(inner[0], "") == [] && Flat(inner, "") == [];
    assert ["", "Logging"][1..] == ["Logging"] && inner[0].key == ["Logging"][0];
    assert LeadsToLeaf(inner, ["Logging"]);
    assert members[0].key == ["", "Logging"][0] && Nested(members[0]);
  }

  /** ...and a colon in a key makes two leaves share a path. */
  lemma ColonExample()
    ensures Flat([Member("a:b", Scalar), Member("a", Section([Member("b", Scalar)]))], "") == ["a:b", "a:b"]
  {
    var b := [Member("b", Scalar)];
    var both := [Member("a:b", Scalar), Member("a", Section(b))];
    assert "a:b" == "a" + [':'] + "b";
    SplitAtSeparator("a", "b", ':');
    SplitPlain("a", ':');
    assert Init(b) == [] && Flat(b, "a") == [] + FlatMember(b[0], "a") == ["a:b"];
    assert Init(both) == [both[0]] && Init([both[0]]) == [];
    assert Flat([both[0]], "") == [] + FlatMember(both[0], "") == ["a:b"];
  }

  // ---- merging ----

  datatype Inventory = Inventory(authKind: string, keys: seq<string>)

  /** First occurrences only, in order. */
  function Distinct(xs: seq<string>): seq<string> {
    if xs == [] then []
    else if Last(xs) in Init(xs) then Distinct(Init(xs))
    else Distinct(Init(xs)) + [Last(xs)]
  }

  function Merged(existing: Inventory, scanned: Inventory): Inventory {
    Inventory(
      if existing.authKind != "" && existing.authKind != "none" then existing.authKind else scanned.authKind,
      Distinct(existing.keys + scanned.keys))
  }

  /** `merge`. */
  method Merge(existing: Inventory, scanned: Inventory) returns (merged: Inventory)
    ensures merged == Merged(existing, scanned)
    ensures merged.authKind == existing.authKind || merged.authKind == scanned.authKind
    ensures existing.authKind !in {"", "none"} ==> merged.authKind == existing.authKind
    ensures existing.authKind in {"", "none"} ==> merged.authKind == scanned.authKind
  {
    var authKind :=
      if existing.authKind != "" && existing.authKind != "none" then existing.authKind else scanned.authKind;
    var keys: seq<string> := [];
    var have: set<string> := {};
    var both := existing.keys + scanned.keys;
    for i := 0 to |both|
      invariant keys == Distinct(both[..i])
      invariant have == set x | x in both[..i]
    {
      assert Init(both[..i + 1]) == both[..i] && Last(both[..i + 1]) == both[i];
      assert both[..i + 1] == both[..i] + [both[i]];
      if both[i] !in have {
        have := have + {both[i]};
        keys := keys + [both[i]];
      }
    }
    assert both[..|both|] == both;
    return Inventory(authKind, keys);
  }

  /** The elements of `xs` that are not in `ys`. */
  function Without(xs: seq<string>, ys: seq<string>): seq<string> {
    if xs == [] then [] else Without(Init(xs), ys) + if Last(xs) in ys then [] else [Last(xs)]
  }

  lemma {:induction false} DistinctElements(xs: seq<string>)
    ensures forall x :: x in Distinct(xs) <==> x in xs
    ensures NoDuplicates(Distinct(xs))
  {
    if xs != [] {
      DistinctElements(Init(xs));
      assert forall x :: x in xs <==> x in Init(xs) || x == Last(xs);
    }
  }

  lemma {:induction false} DistinctAlready(xs: seq<string>)
    requires NoDuplicates(xs)
    ensures Distinct(xs) == xs
  {
    if xs != [] {
      DistinctAlready(Init(xs));
      assert xs == Init(xs) + [Last(xs)];
    }
  }

  lemma WithoutNext(xs: seq<string>, x: string, ys: seq<string>)
    ensures Without(xs + [x], ys) == Without(xs, ys) + if x in ys then [] else [x]
  {
    assert Init(xs + [x]) == xs;
  }

  /** What follows only adds what is new, in its own first-seen order. */
  lemma {:induction false} DistinctConcat(a: seq<string>, b: seq<string>)
    ensures Distinct(a + b) == Distinct(a) + Without(Distinct(b), a)
  {
    if b == [] {
      assert a + b == a;
    } else {
      DistinctConcat(a, Init(b));
      assert Init(a + b) == a + Init(b) && Last(a + b) == Last(b);
      assert Last(b) in a + Init(b) <==> Last(b) in a || Last(b) in Init(b);
      if Last(b) !in Init(b) {
        WithoutNext(Distinct(Init(b)), Last(b), a);
      }
    }
  }

  lemma {:induction false} WithoutSame(xs: seq<string>, ys: seq<string>, zs: seq<string>)
    requires forall y :: y in ys <==> y in zs
    ensures Without(xs, ys) == Without(xs, zs)
  {
    if xs != [] {
      WithoutSame(Init(xs), ys, zs);
    }
  }

  /** Removing duplicates early, on either side, changes nothing. */
  lemma DistinctEarly(a: seq<string>, b: seq<string>)
    ensures Distinct(Distinct(a) + b) == Distinct(a + b) == Distinct(a + Distinct(b))
  {
    DistinctElements(a);
    DistinctElements(b);
    DistinctAlready(Distinct(a));
    DistinctAlready(Distinct(b));
    DistinctConcat(a, b);
    DistinctConcat(Distinct(a), b);
    DistinctConcat(a, Distinct(b));
    WithoutSame(Distinct(b), Distinct(a), a);
  }

  lemma MergeAssociative(a: Inventory, b: Inventory, c: Inventory)
    ensures Merged(Merged(a, b), c) == Merged(a, Merged(b, c))
  {
    DistinctEarly(a.keys + b.keys, c.keys);
    DistinctEarly(a.keys, b.keys + c.keys);
    Associative(a.keys, b.keys, c.keys);
  }

  lemma DistinctTwice(xs: seq<string>)
    ensures Distinct(xs + xs) == Distinct(xs)
  {
    DistinctConcat(xs, xs);
    DistinctElements(xs);
    WithoutAll(Distinct(xs), xs);
  }

  /** Merging with itself, or once more with the same scan, changes nothing. */
  lemma MergeIdempotent(a: Inventory, b: Inventory)
    ensures Merged(a, a) == a <==> NoDuplicates(a.keys)
    ensures Merged(Merged(a, b), b) == Merged(a, b)
  {
    DistinctTwice(a.keys);
    DistinctElements(a.keys);
    if NoDuplicates(a.keys) {
      DistinctAlready(a.keys);
    }
    MergeAssociative(a, b, b);
    DistinctTwice(b.keys);
    DistinctEarly(a.keys, b.keys);
    DistinctEarly(a.keys, b.keys + b.keys);
  }

  lemma {:induction false} WithoutAll(xs: seq<string>, ys: seq<string>)
    requires forall x | x in xs :: x in ys
    ensures Without(xs, ys) == []
  {
    if xs != [] {
      WithoutAll(Init(xs), ys);
    }
  }

  /** A duplicate-free existing list stays as it is, in front of exactly the new keys. */
  lemma MergeKeepsExisting(a: Inventory, b: Inventory)
    requires NoDuplicates(a.keys)
    ensures var keys := Merged(a, b).keys;
      && a.keys <= keys && NoDuplicates(keys)
      && (forall k :: k in keys <==> k in a.keys || k in b.keys)
      && keys[|a.keys|..] == Without(Distinct(b.keys), a.keys)
  {
    DistinctAlready(a.keys);
    DistinctConcat(a.keys, b.keys);
    DistinctElements(a.keys + b.keys);
  }
}
