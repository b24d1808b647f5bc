/**
 * Path components: reduction of `.` and `..` as a normal form, and the way from components to a
 * path string and back.
 */
module Paths {

  // ---------- Reduction ----------

  /** One turn of the loop of `reducePathComponents`. */
  function Push(reduced: seq<string>, component: string): (r: seq<string>)
    requires reduced != []
    ensures r != [] && r[0] == reduced[0]
  {
    if component == "" || component == "." then reduced
    else if component == ".." && |reduced| > 1 && reduced[|reduced| - 1] != ".." then reduced[..|reduced| - 1]
    else if component == ".." && |reduced| == 1 && reduced[0] != "" then reduced
    else reduced + [component]
  }

  function PushAll(reduced: seq<string>, components: seq<string>): (r: seq<string>)
    requires reduced != []
    ensures r != [] && r[0] == reduced[0]
    decreases |components|
  {
    if components == [] then reduced else PushAll(Push(reduced, components[0]), components[1..])
  }

  function Reduce(components: seq<string>): (r: seq<string>) {
    if components == [] then [] else PushAll([components[0]], components[1..])
  }

  /** `reducePathComponents` */
  method ReducePathComponents(components: seq<string>) returns (reduced: seq<string>)
    ensures reduced == Reduce(components)
  {
    if components == [] {
      return [];
    }
    reduced := [components[0]];
    for i := 1 to |components|
      invariant reduced != [] && PushAll(reduced, components[i..]) == Reduce(components)
    {
      var component := components[i];
      assert components[i..] == [component] + components[i + 1..];
      if component == "" {
        continue;
      }
      if component == "." {
        continue;
      }
      if component == ".." {
        if |reduced| > 1 {
          if reduced[|reduced| - 1] != ".." {
            reduced := reduced[..|reduced| - 1];
            continue;
          }
        } else if reduced[0] != "" {
          continue;
        }
      }
      reduced := reduced + [component];
    }
  }

  // ---------- The directory walk ----------

  /** Where a walk stands: so many levels above its start, then down through the names. */
  datatype Place = Place(ups: nat, names: seq<string>)

  const START := Place(0, [])

  /** Following one component. The directory above a root is that root. */
  function Step(rooted: bool, at: Place, component: string): Place {
    if component == "" || component == "." then at
    else if component != ".." then at.(names := at.names + [component])
    else if at.names != [] then at.(names := at.names[..|at.names| - 1])
    else if rooted then at
    else at.(ups := at.ups + 1)
  }

  function Walk(rooted: bool, at: Place, components: seq<string>): Place
    decreases |components|
  {
    if components == [] then at else Walk(rooted, Step(rooted, at, components[0]), components[1..])
  }

  predicate IsName(s: string) { s != "" && s != "." && s != ".." }

  predicate IsPlace(rooted: bool, at: Place) {
    (forall i :: 0 <= i < |at.names| ==> IsName(at.names[i])) && (rooted ==> at.ups == 0)
  }

  function Ups(n: nat): (r: seq<string>)
    ensures |r| == n && forall i :: 0 <= i < n ==> r[i] == ".."
  {
    if n == 0 then [] else Ups(n - 1) + [".."]
  }

  /** The components that name a place most directly. */
  function Direct(root: string, at: Place): seq<string> {
    [root] + Ups(at.ups) + at.names
  }

  lemma PushFollowsStep(root: string, at: Place, component: string)
    requires IsPlace(root != "", at)
    ensures IsPlace(root != "", Step(root != "", at, component))
    ensures Push(Direct(root, at), component) == Direct(root, Step(root != "", at, component))
  {
    var d := Direct(root, at);
    if component == ".." {
      if at.names != [] {
        assert d[|d| - 1] == at.names[|at.names| - 1];
        assert d[..|d| - 1] == [root] + Ups(at.ups) + at.names[..|at.names| - 1];
      } else if root == "" {
        assert at.ups > 0 ==> d[|d| - 1] == Ups(at.ups)[at.ups - 1];
        assert d + [".."] == [root] + (Ups(at.ups) + [".."]) + [];
      }
    } else if IsName(component) {
      assert d + [component] == [root] + Ups(at.ups) + (at.names + [component]);
    }
  }

  lemma {:induction false} PushAllFollowsWalk(root: string, at: Place, components: seq<string>)
    requires IsPlace(root != "", at)
    ensures IsPlace(root != "", Walk(root != "", at, components))
    ensures PushAll(Direct(root, at), components) == Direct(root, Walk(root != "", at, components))
    decreases |components|
  {
    if components != [] {
      PushFollowsStep(root, at, components[0]);
      PushAllFollowsWalk(root, Step(root != "", at, components[0]), components[1..]);
    }
  }

  /** The reduced components are the direct ones of the place that the given ones lead to. */
  lemma ReduceIsDirect(components: seq<string>)
    requires components != []
    ensures var rooted := components[0] != "";
            var at := Walk(rooted, START, components[1..]);
            IsPlace(rooted, at) && Reduce(components) == Direct(components[0], at)
  {
    assert Direct(components[0], START) == [components[0]];
    PushAllFollowsWalk(components[0], START, components[1..]);
  }

  lemma DirectShape(root: string, at: Place)
    requires IsPlace(root != "", at)
    ensures var d := Direct(root, at);
            && (forall i :: 1 <= i <= at.ups ==> d[i] == "..")
            && (at.ups + 1 < |d| ==> d[at.ups + 1] != "..")
            && at.names == d[at.ups + 1..]
  {
  }

  /** Different places have different direct components. */
  lemma DirectIsInjective(root: string, a: Place, b: Place)
    requires IsPlace(root != "", a) && IsPlace(root != "", b) && Direct(root, a) == Direct(root, b)
    ensures a == b
  {
    DirectShape(root, a);
    DirectShape(root, b);
    assert a.ups == b.ups;
  }

  /** Reduction is a normal form: two lists reduce alike exactly when they start and end at the same places. */
  lemma SameReductionIff(a: seq<string>, b: seq<string>)
    requires a != [] && b != []
    ensures Reduce(a) == Reduce(b) <==>
            a[0] == b[0] && Walk(a[0] != "", START, a[1..]) == Walk(b[0] != "", START, b[1..])
  {
    ReduceIsDirect(a);
    ReduceIsDirect(b);
    if Reduce(a) == Reduce(b) {
      assert a[0] == Reduce(a)[0] == b[0];
      DirectIsInjective(a[0], Walk(a[0] != "", START, a[1..]), Walk(b[0] != "", START, b[1..]));
    }
  }

  lemma {:induction false} PushAllSplits(reduced: seq<string>, a: seq<string>, b: seq<string>)
    requires reduced != []
    ensures PushAll(reduced, a + b) == PushAll(PushAll(reduced, a), b)
    decreases |a|
  {
    if a == [] {
      assert a + b == b;
    } else {
      assert (a + b)[1..] == a[1..] + b;
      PushAllSplits(Push(reduced, a[0]), a[1..], b);
    }
  }

  lemma {:induction false} WalkUps(n: nat)
    ensures Walk(false, START, Ups(n)) == Place(n, [])
    decreases n
  {
    if n > 0 {
      WalkUps(n - 1);
      WalkSplits(false, START, Ups(n - 1), [".."]);
    }
  }

  lemma {:induction false} WalkSplits(rooted: bool, at: Place, a: seq<string>, b: seq<string>)
    ensures Walk(rooted, at, a + b) == Walk(rooted, Walk(rooted, at, a), b)
    decreases |a|
  {
    if a == [] {
      assert a + b == b;
    } else {
      assert (a + b)[1..] == a[1..] + b;
      WalkSplits(rooted, Step(rooted, at, a[0]), a[1..], b);
    }
  }

  lemma {:induction false} WalkNames(rooted: bool, at: Place, names: seq<string>)
    requires forall i :: 0 <= i < |names| ==> IsName(names[i])
    ensures Walk(rooted, at, names) == at.(names := at.names + names)
    decreases |names|
  {
    if names != [] {
      WalkNames(rooted, Step(rooted, at, names[0]), names[1..]);
      assert (at.names + [names[0]]) + names[1..] == at.names + names;
    }
  }

  /** Reducing does not change where the components lead. */
  lemma ReduceKeepsWalk(components: seq<string>)
    requires components != []
    ensures var rooted := components[0] != "";
            Walk(rooted, START, Reduce(components)[1..]) == Walk(rooted, START, components[1..])
  {
    var rooted := components[0] != "";
    var at := Walk(rooted, START, components[1..]);
    ReduceIsDirect(components);
    assert Reduce(components)[1..] == Ups(at.ups) + at.names;
    WalkSplits(rooted, START, Ups(at.ups), at.names);
    WalkNames(rooted, Place(at.ups, []), at.names);
    if !rooted {
      WalkUps(at.ups);
    }
  }

  /** Reduction is idempotent, also below further components. */
  lemma ReducePrefix(a: seq<string>, b: seq<string>)
    requires a != []
    ensures Reduce(Reduce(a)) == Reduce(a)
    ensures Reduce(Reduce(a) + b) == Reduce(a + b)
  {
    ReduceKeepsWalk(a);
    SameReductionIff(Reduce(a), a);
    assert (a + b)[1..] == a[1..] + b;
    assert (Reduce(a) + b)[1..] == Reduce(a)[1..] + b;
    PushAllSplits([a[0]], a[1..], b);
    PushAllSplits([a[0]], Reduce(a)[1..], b);
  }

  // ---------- Paths as strings ----------

  /** The first separator at or behind `from`, or the end. */
  function Find(s: string, from: nat): (r: nat)
    requires from <= |s|
    ensures from <= r <= |s| && '/' !in s[from..r] && (r < |s| ==> s[r] == '/')
    decreases |s| - from
  {
    if from == |s| || s[from] == '/' then from else Find(s, from + 1)
  }

  /** The pieces between separators, from `last` on. */
  function SplitFrom(s: string, last: nat): seq<string>
    requires last <= |s|
    decreases |s| - last
  {
    var next := Find(s, last);
    if next == |s| then [s[last..]] else [s[last..next]] + SplitFrom(s, next + 1)
  }

  /** `split` at the directory separator */
  method Split(s: string) returns (result: seq<string>)
    ensures result == SplitFrom(s, 0)
  {
    hide Find;
    result := [];
    var last := 0;
    var next := Find(s, last);
    while next != |s|
      invariant last <= |s| && next == Find(s, last) && result + SplitFrom(s, last) == SplitFrom(s, 0)
      decreases |s| - last
    {
      ghost var piece, rest := [s[last..next]], SplitFrom(s, next + 1);
      assert result + (piece + rest) == (result + piece) + rest;
      result := result + [s[last..next]];
      last := next + 1;
      next := Find(s, last);
    }
    result := result + [s[last..]];
  }

  /** The pieces with one separator between each two. */
  function Written(pieces: seq<string>): string {
    if pieces == [] then "" else if |pieces| == 1 then pieces[0] else pieces[0] + ("/" + Written(pieces[1..]))
  }

  predicate ArePieces(pieces: seq<string>) {
    pieces != [] && forall i :: 0 <= i < |pieces| ==> '/' !in pieces[i]
  }

  lemma OneMorePiece(piece: string, more: seq<string>)
    requires '/' !in piece && ArePieces(more)
    ensures ArePieces([piece] + more) && Written([piece] + more) == piece + ("/" + Written(more))
  {
    assert ([piece] + more)[1..] == more;
  }

  lemma {:induction false} SplitGivesPieces(s: string, last: nat)
    requires last <= |s|
    ensures ArePieces(SplitFrom(s, last)) && Written(SplitFrom(s, last)) == s[last..]
    decreases |s| - last
  {
    hide Find;
    var next := Find(s, last);
    if next < |s| {
      SplitGivesPieces(s, next + 1);
      OneMorePiece(s[last..next], SplitFrom(s, next + 1));
      hide Written, ArePieces;
      assert s[last..] == s[last..next] + ("/" + s[next + 1..]);
    }
  }

  lemma FirstPiece(pieces: seq<string>)
    requires ArePieces(pieces)
    ensures var n, w := |pieces[0]|, Written(pieces);
            && n <= |w| && w[..n] == pieces[0] && '/' !in w[..n]
            && (n == |w| <==> |pieces| == 1)
            && (|pieces| > 1 ==> w[n] == '/' && w[n + 1..] == Written(pieces[1..]) && ArePieces(pieces[1..]))
  {
    var first := pieces[0];
    if |pieces| > 1 {
      var rest := Written(pieces[1..]);
      assert Written(pieces) == first + ("/" + rest);
      hide Written;
      assert Written(pieces)[|first| + 1..] == rest;
    }
  }

  lemma EndsNoEarlier(w: string, n: nat, m: nat)
    requires m <= |w| && '/' !in w[..m] && (n < |w| ==> w[n] == '/')
    ensures m <= n
  {
  }

  /** A text is written from one list of pieces only. */
  lemma {:induction false} PiecesAreUnique(a: seq<string>, b: seq<string>)
    requires ArePieces(a) && ArePieces(b) && Written(a) == Written(b)
    ensures a == b
    decreases |a|
  {
    FirstPiece(a);
    FirstPiece(b);
    hide Written, ArePieces;
    var w, n, m := Written(a), |a[0]|, |b[0]|;
    EndsNoEarlier(w, n, m);
    EndsNoEarlier(w, m, n);
    if |a| > 1 {
      PiecesAreUnique(a[1..], b[1..]);
      assert a == [a[0]] + a[1..] && b == [b[0]] + b[1..];
    } else {
      assert a == [a[0]] && b == [b[0]];
    }
  }

  /** The pieces hold no separator and make up the text, and no other list does. */
  lemma SplitIff(s: string, pieces: seq<string>)
    ensures SplitFrom(s, 0) == pieces <==> ArePieces(pieces) && Written(pieces) == s
  {
    SplitGivesPieces(s, 0);
    assert s[0..] == s;
    if ArePieces(pieces) && Written(pieces) == s {
      PiecesAreUnique(SplitFrom(s, 0), pieces);
    }
  }

  /** `join`: the delimiter is written behind every element, the last one included. */
  function Join(components: seq<string>): string {
    if components == [] then "" else components[0] + "/" + Join(components[1..])
  }

  function EnsureTrailingSeparator(path: string): string {
    if path != "" && path[|path| - 1] in "/\\" then path else path + "/"
  }

  /** `getPathFromPathComponents` */
  function PathFromComponents(components: seq<string>): string {
    if components == [] then "" else EnsureTrailingSeparator(components[0]) + Join(components[1..])
  }

  function NormalizeSlashes(path: string): (r: string)
    ensures |r| == |path|
    ensures forall i :: 0 <= i < |path| ==> r[i] == if path[i] == '\\' then '/' else path[i]
  {
    if path == "" then "" else [if path[0] == '\\' then '/' else path[0]] + NormalizeSlashes(path[1..])
  }

  predicate IsVolume(c: char) { 'a' <= c <= 'z' || 'A' <= c <= 'Z' }

  predicate HasScheme(path: string) {
    exists i :: 0 <= i < |path| - 2 && path[i] == ':' && path[i + 1] == '/' && path[i + 2] == '/'
  }

  datatype Root = Root(length: nat) | UrlRoot

  /**
   * `getRootLength` of a path with forward slashes. A path `//server` gets 0: the position that
   * `find` returns for no match is one short of wrapping round to it.
   */
  function RootLength(path: string): (r: Root)
    ensures r.Root? ==> r.length <= |path|
  {
    if path == "" then Root(0)
    else if path[0] == '/' then
      if |path| == 1 || path[1] != '/' then Root(1)
      else
        var p1 := Find(path, 2);
        Root(if p1 == |path| then 0 else p1 + 1)
    else if IsVolume(path[0]) && |path| > 1 && path[1] == ':' && |path| > 2 && path[2] == '/' then Root(3)
    else if IsVolume(path[0]) && |path| == 2 && path[1] == ':' then Root(2)
    else if HasScheme(path) then UrlRoot
    else Root(0)
  }

  datatype Components = Components(all: seq<string>) | UrlComponents

  /**
   * `getPathComponents` without a current directory. The trailing empty piece stays: the test that
   * should drop it asks whether there is a last piece, not whether it is empty.
   */
  function ComponentsOf(path: string): Components {
    var p := NormalizeSlashes(path);
    match RootLength(p)
    case UrlRoot => UrlComponents
    case Root(n) => Components([p[..n]] + SplitFrom(p[n..], 0))
  }

  /** `/` or `x:/` */
  predicate IsLocalRoot(root: string) {
    root == "/" || (|root| == 3 && IsVolume(root[0]) && root[1..] == ":/")
  }

  predicate HasNoSeparator(s: string) { '/' !in s && '\\' !in s }

  predicate HaveNoSeparator(components: seq<string>) {
    forall i :: 0 <= i < |components| ==> HasNoSeparator(components[i])
  }

  lemma {:induction false} FindEndOf(s: string, from: nat, to: nat)
    requires from <= to < |s| && s[to] == '/' && forall i :: from <= i < to ==> s[i] != '/'
    ensures Find(s, from) == to
    decreases |s| - from
  {
    if from < to {
      FindEndOf(s, from + 1, to);
    }
  }

  lemma JoinParts(components: seq<string>)
    requires components != [] && HaveNoSeparator(components)
    ensures var first, j := components[0], Join(components);
            && |first| < |j| && j[..|first|] == first && j[|first|] == '/'
            && j[|first| + 1..] == Join(components[1..])
            && (forall i :: 0 <= i < |first| ==> j[i] != '/')
    ensures HaveNoSeparator(components[1..])
  {
    var first, rest := components[0], Join(components[1..]);
    assert HasNoSeparator(first);
    assert Join(components) == (first + "/") + rest;
    hide Join;
    assert forall i :: 0 <= i < |first| ==> first[i] in first;
  }

  lemma {:induction false} SplitJoin(s: string, from: nat, components: seq<string>)
    requires HaveNoSeparator(components) && from <= |s| && s[from..] == Join(components)
    ensures SplitFrom(s, from) == components + [""]
    decreases |components|
  {
    hide *;
    if components == [] {
      SplitNothing(s, from);
    } else {
      var n := |components[0]|;
      JoinParts(components);
      JoinAt(s, from, Join(components), n);
      SplitAt(s, from, from + n);
      SplitJoin(s, from + n + 1, components[1..]);
      FirstAndRest(components);
    }
  }

  lemma SplitNothing(s: string, from: nat)
    requires from <= |s| && s[from..] == Join([])
    ensures SplitFrom(s, from) == [] + [""]
  {
  }

  lemma FirstAndRest(components: seq<string>)
    requires components != []
    ensures [components[0]] + (components[1..] + [""]) == components + [""]
  {
  }

  lemma SplitAt(s: string, from: nat, to: nat)
    requires from <= to < |s| && s[to] == '/' && forall i :: from <= i < to ==> s[i] != '/'
    ensures SplitFrom(s, from) == [s[from..to]] + SplitFrom(s, to + 1)
  {
    FindEndOf(s, from, to);
  }

  lemma JoinAt(s: string, from: nat, j: string, n: nat)
    requires from <= |s| && s[from..] == j && n < |j|
    ensures |s| == from + |j| && s[from..from + n] == j[..n] && s[from + n + 1..] == j[n + 1..]
    ensures forall i :: from <= i < |s| ==> s[i] == j[i - from]
  {
  }

  lemma {:induction false} JoinIsPlain(components: seq<string>)
    requires HaveNoSeparator(components)
    ensures '\\' !in Join(components)
    decreases |components|
  {
    if components != [] {
      assert HasNoSeparator(components[0]);
      JoinIsPlain(components[1..]);
    }
  }

  lemma PlainIsNormal(path: string)
    requires '\\' !in path
    ensures NormalizeSlashes(path) == path
  {
    assert forall i :: 0 <= i < |path| ==> path[i] in path;
  }

  lemma FirstOfJoin(components: seq<string>)
    requires HaveNoSeparator(components)
    ensures Join(components) != "" && Join(components)[0] == '/' <==> components != [] && components[0] == ""
  {
    if components != [] && components[0] != "" {
      assert HasNoSeparator(components[0]) && components[0][0] in components[0];
      assert Join(components)[0] == components[0][0];
    }
  }

  lemma LocalRootLength(root: string, rest: string)
    requires IsLocalRoot(root)
    ensures var r := RootLength(root + rest);
            r.Root? && (r.length == |root| <==> !(root == "/" && rest != "" && rest[0] == '/'))
  {
    if root != "/" {
      assert root[1] == root[1..][0] && root[2] == root[1..][1];
    }
  }

  /** A server root ends behind its name's separator and is not found without one; a bare volume is all root. */
  lemma OtherRootLengths(host: string, rest: string, volume: char)
    requires '/' !in host && IsVolume(volume)
    ensures RootLength("//" + host + "/" + rest) == Root(|host| + 3) && RootLength("//" + host) == Root(0)
    ensures RootLength([volume] + ":") == Root(2)
  {
    var path, bare := "//" + host + "/" + rest, "//" + host;
    assert forall i :: 2 <= i < |bare| ==> path[i] == bare[i] == host[i - 2];
    FindEndOf(path, 2, |bare|);
  }

  /** A path that begins with none of these and holds no scheme is relative. */
  lemma RelativeHasNoRoot(path: string)
    requires path != "" && path[0] != '/' && !HasScheme(path)
    requires !(IsVolume(path[0]) && |path| > 1 && path[1] == ':' && (|path| == 2 || path[2] == '/'))
    ensures RootLength(path) == Root(0)
  {
  }

  /**
   * A path written from components under a local root is parsed back into them, with an empty
   * piece behind, exactly when it does not begin with two separators.
   */
  lemma ComponentsOfPathIff(components: seq<string>)
    requires components != [] && IsLocalRoot(components[0]) && HaveNoSeparator(components[1..])
    ensures ComponentsOf(PathFromComponents(components)) == Components(components + [""]) <==>
            !(components[0] == "/" && |components| > 1 && components[1] == "")
  {
    var root, rest := components[0], components[1..];
    var path := PathFromComponents(components);
    assert path == root + Join(rest);
    JoinIsPlain(rest);
    LocalRootIsPlain(root);
    PlainIsNormal(path);
    FirstOfJoin(rest);
    LocalRootLength(root, Join(rest));
    var n := RootLength(path).length;
    hide RootLength, SplitFrom, Join, HasNoSeparator;
    assert ComponentsOf(path) == Components([path[..n]] + SplitFrom(path[n..], 0));
    if n == |root| {
      assert path[..n] == root && path[n..] == Join(rest) == path[n..][0..];
      SplitJoin(path[n..], 0, rest);
      FirstAndRest(components);
    } else {
      assert ComponentsOf(path).all[0] == path[..n];
    }
  }

  lemma {:induction false} WrittenIsPlain(names: seq<string>)
    requires HaveNoSeparator(names)
    ensures '\\' !in Written(names)
    decreases |names|
  {
    if names != [] {
      assert HasNoSeparator(names[0]);
      WrittenIsPlain(names[1..]);
    }
  }

  /**
   * A local root and names behind it, with a separator between each two and none at the end, are
   * parsed into root and names, exactly when the path does not begin with two separators.
   */
  lemma ComponentsOfWrittenIff(root: string, names: seq<string>)
    requires IsLocalRoot(root) && names != [] && HaveNoSeparator(names)
    ensures ComponentsOf(root + Written(names)) == Components([root] + names) <==>
            !(root == "/" && |names| > 1 && names[0] == "")
  {
    var path := root + Written(names);
    assert ArePieces(names) by {
      assert forall i :: 0 <= i < |names| ==> HasNoSeparator(names[i]);
    }
    FirstPiece(names);
    WrittenIsPlain(names);
    LocalRootIsPlain(root);
    PlainIsNormal(path);
    LocalRootLength(root, Written(names));
    SplitIff(Written(names), names);
    var n := RootLength(path).length;
    hide RootLength, SplitFrom, Written, ArePieces, HasNoSeparator;
    assert ComponentsOf(path) == Components([path[..n]] + SplitFrom(path[n..], 0));
    if n == |root| {
      assert path[..n] == root && path[n..] == Written(names);
    } else {
      assert ComponentsOf(path).all[0] == path[..n];
    }
  }

  lemma LocalRootIsPlain(root: string)
    requires IsLocalRoot(root)
    ensures '\\' !in root && EnsureTrailingSeparator(root) == root
  {
    if root != "/" {
      assert root == [root[0]] + root[1..];
      assert root[2] == root[1..][1];
    }
  }

  /** Reduced components under a local root survive being written as a path, parsed and reduced again. */
  lemma ReducedReadsBack(components: seq<string>)
    requires components != [] && IsLocalRoot(components[0]) && HaveNoSeparator(components[1..])
    requires Reduce(components) == components
    ensures var c := ComponentsOf(PathFromComponents(components));
            c.Components? && Reduce(c.all) == components
  {
    hide ComponentsOf, PathFromComponents;
    ReducedHasNames(components);
    ComponentsOfPathIff(components);
    ReduceEndingEmpty(components);
  }

  lemma ReducedHasNames(components: seq<string>)
    requires components != [] && components[0] != "" && Reduce(components) == components
    ensures |components| > 1 ==> components[1] != ""
  {
    ReduceIsDirect(components);
  }

  lemma ReduceEndingEmpty(components: seq<string>)
    requires components != []
    ensures Reduce(components + [""]) == Reduce(components)
  {
    assert (components + [""])[1..] == components[1..] + [""];
    PushAllSplits([components[0]], components[1..], [""]);
  }
}
