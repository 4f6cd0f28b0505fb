/** Symbol codes on the client: the SIDC derived from a CoT type string
    (`sidcFromType` in map.js) and the two walkers over the type tree
    (`getRootSidc`, `getSidc`). */
module Sidc {
  import opened Text
  import opened Opt

  /** The leading run of segments of length at most one, concatenated. */
  function ShortRun(segs: seq<string>): (r: string)
    ensures |r| <= |segs|
  {
    if segs == [] || |segs[0]| > 1 then "" else segs[0] + ShortRun(segs[1..])
  }

  /** The run stops at the first segment longer than one character: nothing
      from it on contributes. */
  lemma {:induction false} ShortRunStops(segs: seq<string>, k: nat)
    requires k < |segs| && |segs[k]| > 1
    ensures ShortRun(segs) == ShortRun(segs[..k])
  {
    if k > 0 && |segs[0]| <= 1 {
      assert segs[1..][..k - 1] == segs[..k][1..];
      ShortRunStops(segs[1..], k - 1);
    }
  }

  /** Segments of at most one character before `k` are all taken, in order,
      ahead of whatever the rest contributes. */
  lemma {:induction false} ShortRunTakesShort(segs: seq<string>, k: nat)
    requires k <= |segs| && forall j :: 0 <= j < k ==> |segs[j]| <= 1
    ensures ShortRun(segs) == ShortRun(segs[..k]) + ShortRun(segs[k..])
  {
    if k > 0 {
      assert segs[1..][..k - 1] == segs[..k][1..];
      assert segs[1..][k - 1..] == segs[k..];
      ShortRunTakesShort(segs[1..], k - 1);
    }
  }

  /** Pads with '-' to ten characters. */
  function PadDashes(s: string): (r: string)
    ensures |r| == if |s| < 10 then 10 else |s|
    ensures forall i :: 0 <= i < |s| ==> r[i] == s[i]
    ensures forall i :: |s| <= i < |r| ==> r[i] == '-'
  {
    if |s| < 10 then s + Repeat('-', 10 - |s|) else s
  }

  /** A CoT type `a-<affiliation>-<dimension>-...` splits into "a" followed by
      the segments after "a-". */
  lemma SplitTypePrefix(s: string)
    requires StartsWith(s, "a-")
    ensures Split(s, '-') == ["a"] + Split(s[2..], '-')
  {
    assert s == "a" + ['-'] + s[2..];
    SplitConcat("a", '-', s[2..]);
    SplitNoSep("a", '-');
  }

  /** The part of the SIDC built before padding: 'S', the affiliation, the
      dimension (or '-') and status 'P', then the leading one-character
      segments of the function id. */
  function SidcBody(n: seq<string>): (b: string)
    requires |n| >= 2
    ensures |b| >= 2 && b[0] == 'S'
  {
    var head := "S" + n[1] + (if |n| > 2 then n[2] + "P" else "-P");
    assert head[0] == 'S';
    head + (if |n| > 3 then ShortRun(n[3..]) else "")
  }

  /** The SIDC body of an atom type. */
  function TypeBody(s: string): (b: string)
    requires StartsWith(s, "a-")
    ensures |b| >= 2 && b[0] == 'S'
  {
    SplitTypePrefix(s);
    SidcBody(Split(s, '-'))
  }

  /** `sidcFromType` as a value: "" for anything that is not an atom type,
      otherwise a ten-or-more character upper-case code starting with 'S':
      the body, upper-cased, then '-' up to ten characters. */
  function SidcOf(s: string): (r: string)
    ensures !StartsWith(s, "a-") ==> r == ""
    ensures StartsWith(s, "a-") ==> |r| >= 10 && r[0] == 'S'
    ensures StartsWith(s, "a-") ==>
      var b := TypeBody(s);
      && |r| == (if |b| < 10 then 10 else |b|)
      && (forall i :: 0 <= i < |b| ==> r[i] == UpperChar(b[i]))
      && (forall i :: |b| <= i < |r| ==> r[i] == '-')
    ensures forall i :: 0 <= i < |r| ==> !IsLowerAscii(r[i])
  {
    if !StartsWith(s, "a-") then ""
    else ToUpper(PadDashes(TypeBody(s)))
  }

  /** `sidcFromType`: the loop over the segments after the dimension stops at
      the first segment longer than one character. */
  method SidcFromType(s: string) returns (sidc: string)
    ensures sidc == SidcOf(s)
  {
    if !StartsWith(s, "a-") {
      return "";
    }
    var n := Split(s, '-');
    SplitTypePrefix(s);
    sidc := "S" + n[1];
    if |n| > 2 {
      sidc := sidc + n[2] + "P";
      assert sidc == "S" + n[1] + (n[2] + "P");
    } else {
      sidc := sidc + "-P";
    }
    ghost var head := sidc;
    if |n| > 3 {
      var i := 3;
      while i < |n|
        invariant 3 <= i <= |n|
        invariant sidc + ShortRun(n[i..]) == head + ShortRun(n[3..])
      {
        assert n[i..][0] == n[i];
        if |n[i]| > 1 {
          assert ShortRun(n[i..]) == "";
          break;
        }
        assert n[i..][1..] == n[i + 1..];
        assert ShortRun(n[i..]) == n[i] + ShortRun(n[i + 1..]);
        assert sidc + n[i] + ShortRun(n[i + 1..]) == sidc + (n[i] + ShortRun(n[i + 1..]));
        sidc := sidc + n[i];
        i := i + 1;
      }
      assert sidc == head + ShortRun(n[3..]);
    }
    assert sidc == SidcBody(n);
    ghost var body := sidc;
    if |sidc| < 10 {
      sidc := sidc + Repeat('-', 10 - |sidc|);
    }
    assert sidc == PadDashes(body);
    sidc := ToUpper(sidc);
  }

  /** In a type `a-<aff>-<dim>-...` with one-character affiliation and
      dimension, the SIDC carries the affiliation at position 2, the
      dimension at position 3 and status "present" at position 4. */
  lemma SidcPositions(aff: char, dim: char, rest: string)
    requires aff != '-' && dim != '-'
    ensures var r := SidcOf("a-" + [aff] + "-" + [dim] + "-" + rest);
      r[1] == UpperChar(aff) && r[2] == UpperChar(dim) && r[3] == 'P'
  {
    var s := "a-" + [aff] + "-" + [dim] + "-" + rest;
    assert s[..2] == "a-";
    assert s[2..] == [aff] + ['-'] + ([dim] + ['-'] + rest);
    SplitTypePrefix(s);
    SplitConcat([aff], '-', [dim] + ['-'] + rest);
    SplitConcat([dim], '-', rest);
    SplitNoSep([aff], '-');
    SplitNoSep([dim], '-');
    var n := Split(s, '-');
    assert n == ["a", [aff], [dim]] + Split(rest, '-');
    var body := SidcBody(n);
    assert body[..4] == ['S', aff, dim, 'P'];
  }

  /** A type with five one-character segments after "a-" keeps them all,
      in order, after the status, and is padded to ten characters. */
  lemma SidcOfFiveSegments(aff: char, dim: char, x: char, y: char, z: char)
    requires aff != '-' && dim != '-' && x != '-' && y != '-' && z != '-'
    ensures SidcOf("a-" + [aff, '-', dim, '-', x, '-', y, '-', z])
         == ToUpper(['S', aff, dim, 'P', x, y, z, '-', '-', '-'])
  {
    var s := "a-" + [aff, '-', dim, '-', x, '-', y, '-', z];
    assert s[..2] == "a-";
    assert s[2..] == [aff, '-', dim, '-', x, '-', y, '-', z];
    SplitTypePrefix(s);
    SplitFiveSegments(aff, dim, x, y, z);
    var n := Split(s, '-');
    assert n == ["a", [aff], [dim], [x], [y], [z]];
    ShortRunOfThree(x, y, z);
    assert n[3..] == [[x], [y], [z]];
    assert SidcBody(n) == ['S', aff, dim, 'P', x, y, z];
  }

  /** A segment longer than one character after the dimension ends the
      code: nothing from it on reaches the SIDC (as for "a-f-G-UC-I"). */
  lemma SidcStopsAtLongSegment(aff: char, dim: char, long: string, rest: string)
    requires aff != '-' && dim != '-' && |long| > 1 && '-' !in long
    ensures SidcOf("a-" + [aff] + "-" + [dim] + "-" + long + "-" + rest)
         == ToUpper(PadDashes(['S', aff, dim, 'P']))
  {
    var s := "a-" + [aff] + "-" + [dim] + "-" + long + "-" + rest;
    SplitLongSegment(aff, dim, long, rest);
    BodyStopsAtLongSegment(["a", [aff], [dim], long] + Split(rest, '-'));
  }

  /** How such a type splits at '-'. */
  lemma SplitLongSegment(aff: char, dim: char, long: string, rest: string)
    requires aff != '-' && dim != '-' && '-' !in long
    ensures var s := "a-" + [aff] + "-" + [dim] + "-" + long + "-" + rest;
      StartsWith(s, "a-") && Split(s, '-') == ["a", [aff], [dim], long] + Split(rest, '-')
  {
    var tail := long + "-" + rest;
    SplitAtomType(aff, dim, tail);
    assert "a-" + [aff] + "-" + [dim] + "-" + long + "-" + rest == "a-" + [aff] + "-" + [dim] + "-" + tail;
    assert tail == long + ['-'] + rest;
    SplitConcat(long, '-', rest);
    SplitNoSep(long, '-');
  }

  /** An atom type with one-character affiliation and dimension splits into
      "a", those two, and the segments of the tail. */
  lemma SplitAtomType(aff: char, dim: char, tail: string)
    requires aff != '-' && dim != '-'
    ensures var s := "a-" + [aff] + "-" + [dim] + "-" + tail;
      StartsWith(s, "a-") && Split(s, '-') == ["a", [aff], [dim]] + Split(tail, '-')
  {
    var s := "a-" + [aff] + "-" + [dim] + "-" + tail;
    var t := [dim] + ['-'] + tail;
    assert s[..2] == "a-";
    assert s[2..] == [aff] + ['-'] + t;
    SplitTypePrefix(s);
    SplitConcat([aff], '-', t);
    SplitConcat([dim], '-', tail);
    SplitNoSep([aff], '-');
    SplitNoSep([dim], '-');
    assert Split(s[2..], '-') == [[aff]] + Split(t, '-');
    assert Split(t, '-') == [[dim]] + Split(tail, '-');
  }

  /** A fourth segment longer than one character leaves the body at
      'S', affiliation, dimension and 'P'. */
  lemma BodyStopsAtLongSegment(n: seq<string>)
    requires |n| > 3 && |n[1]| == 1 && |n[2]| == 1 && |n[3]| > 1
    ensures SidcBody(n) == ['S', n[1][0], n[2][0], 'P']
  {
    assert n[3..][0] == n[3];
  }

  lemma SplitFiveSegments(aff: char, dim: char, x: char, y: char, z: char)
    requires aff != '-' && dim != '-' && x != '-' && y != '-' && z != '-'
    ensures Split([aff, '-', dim, '-', x, '-', y, '-', z], '-') == [[aff], [dim], [x], [y], [z]]
  {
    assert [aff, '-', dim, '-', x, '-', y, '-', z]
        == [aff] + ['-'] + [dim] + ['-'] + [x] + ['-'] + [y] + ['-'] + [z];
    SplitFive([aff], [dim], [x], [y], [z], '-');
  }

  /** Five separator-free parts joined by the separator split back into
      themselves. */
  lemma SplitFive(a: string, b: string, c: string, d: string, e: string, sep: char)
    requires sep !in a && sep !in b && sep !in c && sep !in d && sep !in e
    ensures Split(a + [sep] + b + [sep] + c + [sep] + d + [sep] + e, sep) == [a, b, c, d, e]
  {
    SplitNoSep(a, sep);
    SplitNoSep(b, sep);
    SplitNoSep(c, sep);
    SplitNoSep(d, sep);
    SplitNoSep(e, sep);
    SplitConcat(a, sep, b);
    SplitConcat(a + [sep] + b, sep, c);
    SplitConcat(a + [sep] + b + [sep] + c, sep, d);
    SplitConcat(a + [sep] + b + [sep] + c + [sep] + d, sep, e);
  }

  lemma ShortRunOfThree(x: char, y: char, z: char)
    ensures ShortRun([[x], [y], [z]]) == [x, y, z]
  {
    assert [[x], [y], [z]][1..] == [[y], [z]];
    assert [[y], [z]][1..] == [[z]];
    assert [[z]][1..] == [];
    assert ShortRun([[z]]) == [z] + ShortRun([]);
    assert ShortRun([[y], [z]]) == [y] + ShortRun([[z]]);
    assert ShortRun([[x], [y], [z]]) == [x] + ShortRun([[y], [z]]);
  }

  /** A node of the CoT type tree: `next` is the list of children; a node
      without `next` is a leaf. */
  datatype TypeNode = Leaf(code: string) | Branch(code: string, next: seq<TypeNode>)

  /** `n` is `root` or lies below it. */
  ghost predicate InTree(n: TypeNode, root: TypeNode)
    decreases root
  {
    n == root || (root.Branch? && exists k :: k in root.next && InTree(n, k))
  }

  /** Index of the first child whose code is a prefix of `s`: the child at
      which the walkers' inner loop returns or descends. */
  function FirstPrefixChild(kids: seq<TypeNode>, s: string): (r: Option<nat>)
    ensures r.Some? ==> r.value < |kids| && StartsWith(s, kids[r.value].code)
    ensures r.Some? ==> forall j :: 0 <= j < r.value ==> !StartsWith(s, kids[j].code)
    ensures r.None? ==> forall j :: 0 <= j < |kids| ==> !StartsWith(s, kids[j].code)
  {
    if kids == [] then None
    else if StartsWith(s, kids[0].code) then Some(0)
    else
      match FirstPrefixChild(kids[1..], s)
      case None => None
      case Some(i) => Some(i + 1)
  }

  /** The walk of `getRootSidc` from `curr`: the node one of whose children
      has code `s`, following at each level the first child whose code is a
      prefix of `s`. */
  function RootSidcFrom(curr: TypeNode, s: string): (r: Option<TypeNode>)
    ensures r.Some? ==> r.value.Branch? && InTree(r.value, curr)
    ensures r.Some? ==> exists k :: k in r.value.next && k.code == s
    decreases curr
  {
    match curr
    case Leaf(_) => None
    case Branch(_, kids) =>
      match FirstPrefixChild(kids, s)
      case None => None
      case Some(i) =>
        if kids[i].code == s then Some(curr)
        else
          var r := RootSidcFrom(kids[i], s);
          assert kids[i] in kids;
          r
  }

  /** `getRootSidc` as a value; no tree gives null (`None`). */
  function RootSidcOf(types: Option<TypeNode>, s: string): Option<TypeNode> {
    if types.None? then None else RootSidcFrom(types.value, s)
  }

  /** What `getSidc` does: it returns a node (or null), or spins forever,
      which it does when the walk reaches a node none of whose children's
      codes is a prefix of `s`. */
  datatype SidcLookup = Halts(node: Option<TypeNode>) | Spins

  function SidcFrom(curr: TypeNode, s: string): (r: SidcLookup)
    ensures r.Halts? && r.node.Some? ==> r.node.value.code == s && InTree(r.node.value, curr)
    decreases curr
  {
    match curr
    case Leaf(_) => Halts(None)
    case Branch(_, kids) =>
      match FirstPrefixChild(kids, s)
      case None => Spins
      case Some(i) =>
        assert kids[i] in kids;
        if kids[i].code == s then Halts(Some(kids[i]))
        else SidcFrom(kids[i], s)
  }

  /** `getSidc` as a value: the empty code names the whole tree. */
  function SidcNodeOf(types: Option<TypeNode>, s: string): SidcLookup {
    if s == "" then Halts(types)
    else if types.None? then Halts(None)
    else SidcFrom(types.value, s)
  }

  /** `getRootSidc`: walks down the tree until a child's code equals `s`. */
  method GetRootSidc(types: Option<TypeNode>, s: string) returns (r: Option<TypeNode>)
    ensures r == RootSidcOf(types, s)
  {
    if types.None? {
      return None;
    }
    var curr := types.value;
    while true
      invariant RootSidcFrom(curr, s) == RootSidcOf(types, s)
      decreases curr
    {
      if curr.Leaf? {
        return None;
      }
      var kids := curr.next;
      var i := 0;
      var found := false;
      while i < |kids|
        invariant 0 <= i <= |kids|
        invariant forall j :: 0 <= j < i ==> !StartsWith(s, kids[j].code)
      {
        if kids[i].code == s {
          assert FirstPrefixChild(kids, s) == Some(i);
          return Some(curr);
        }
        if StartsWith(s, kids[i].code) {
          found := true;
          break;
        }
        i := i + 1;
      }
      if !found {
        return None;
      }
      assert FirstPrefixChild(kids, s) == Some(i);
      assert kids[i] in kids;
      curr := kids[i];
    }
  }

  /** `getSidc`; returns `Spins` where the source's loop never ends. */
  method GetSidc(types: Option<TypeNode>, s: string) returns (r: SidcLookup)
    ensures r == SidcNodeOf(types, s)
  {
    if s == "" {
      return Halts(types);
    }
    if types.None? {
      return Halts(None);
    }
    var curr := types.value;
    while true
      invariant SidcFrom(curr, s) == SidcNodeOf(types, s)
      decreases curr
    {
      if curr.Leaf? {
        return Halts(None);
      }
      var kids := curr.next;
      var i := 0;
      var found := false;
      while i < |kids|
        invariant 0 <= i <= |kids|
        invariant forall j :: 0 <= j < i ==> !StartsWith(s, kids[j].code)
      {
        if kids[i].code == s {
          assert FirstPrefixChild(kids, s) == Some(i);
          return Halts(Some(kids[i]));
        }
        if StartsWith(s, kids[i].code) {
          found := true;
          break;
        }
        i := i + 1;
      }
      if !found {
        // the source re-scans the same node forever
        return Spins;
      }
      assert FirstPrefixChild(kids, s) == Some(i);
      assert kids[i] in kids;
      curr := kids[i];
    }
  }

  /** The two walkers take the same path: when `getRootSidc` finds a parent,
      `getSidc` finds the child of that parent whose code is `s`; when it
      finds none, `getSidc` returns null or spins. */
  lemma {:induction false} RootIsParentOfSidc(curr: TypeNode, s: string)
    ensures RootSidcFrom(curr, s).Some? ==>
      var lk := SidcFrom(curr, s);
      lk.Halts? && lk.node.Some? && lk.node.value in RootSidcFrom(curr, s).value.next
    ensures RootSidcFrom(curr, s).None? ==> SidcFrom(curr, s) in {Halts(None), Spins}
    decreases curr
  {
    match curr
    case Leaf(_) =>
    case Branch(_, kids) =>
      match FirstPrefixChild(kids, s)
      case None =>
      case Some(i) =>
        if kids[i].code != s {
          assert kids[i] in kids;
          RootIsParentOfSidc(kids[i], s);
        }
  }

  /** Over a whole (possibly missing) tree and a non-empty code. */
  lemma WalkersAgree(types: Option<TypeNode>, s: string)
    requires s != ""
    ensures RootSidcOf(types, s).Some? ==>
      SidcNodeOf(types, s).Halts? && SidcNodeOf(types, s).node.Some? &&
      SidcNodeOf(types, s).node.value in RootSidcOf(types, s).value.next
    ensures RootSidcOf(types, s).None? ==> SidcNodeOf(types, s) in {Halts(None), Spins}
  {
    if types.Some? {
      RootIsParentOfSidc(types.value, s);
    }
  }

  /** `getSidc` spins exactly when the walk meets a branch none of whose
      children's codes is a prefix of `s`, for example a branch with an
      empty child list. */
  lemma EmptyBranchSpins(code: string, s: string)
    requires s != ""
    ensures SidcNodeOf(Some(Branch(code, [])), s) == Spins
    ensures RootSidcOf(Some(Branch(code, [])), s) == None
  {
  }
}
