/** The common root of the files of a create request, and the names relative to it.
    Paths are absolute and cleaned, as filepath.Abs returns them; components compare exactly and
    the separator is '/', as on Unix. Volume names are kept, since the code compares them. */
module FileRoot {
  import opened Common

  datatype Path = Path(volume: string, segs: seq<string>)

  predicate CleanSeg(s: string) { s != "" && s != "." && s != ".." && '/' !in s }

  predicate Clean(segs: seq<string>) { forall i :: 0 <= i < |segs| ==> CleanSeg(segs[i]) }

  predicate EqualFold(a: string, b: string) {
    |a| == |b| && forall i :: 0 <= i < |a| ==> Lower(a[i]) == Lower(b[i])
  }

  /** Folding compares letters without their case, and everything else as it is. */
  lemma EqualFoldIff(a: string, b: string)
    ensures EqualFold(a, b) <==> |a| == |b| && forall i :: 0 <= i < |a| ==>
      (a[i] == b[i]
       || ('A' <= a[i] <= 'Z' && b[i] as int == a[i] as int + 32)
       || ('A' <= b[i] <= 'Z' && a[i] as int == b[i] as int + 32))
  {
  }

  function Dir(p: Path): Path {
    if p.segs == [] then p else p.(segs := p.segs[..|p.segs| - 1])
  }

  function Join(segs: seq<string>): string {
    if segs == [] then "" else if |segs| == 1 then segs[0] else segs[0] + "/" + Join(segs[1..])
  }

  /** The pieces between separators; one empty piece for the empty string. */
  function Split(s: string): (pieces: seq<string>)
    ensures pieces != []
  {
    if s == "" then [""]
    else
      var rest := Split(s[1..]);
      if s[0] == '/' then [""] + rest else [[s[0]] + rest[0]] + rest[1..]
  }

  lemma {:induction false} SplitPiece(piece: string, rest: string)
    requires '/' !in piece
    ensures Split(piece) == [piece]
    ensures Split(piece + "/" + rest) == [piece] + Split(rest)
  {
    if piece == "" {
      assert piece + "/" + rest == "/" + rest;
      assert ("/" + rest)[1..] == rest;
    } else {
      SplitPiece(piece[1..], rest);
      assert (piece + "/" + rest)[1..] == piece[1..] + "/" + rest;
      assert [piece[0]] + piece[1..] == piece;
    }
  }

  lemma {:induction false} SplitJoin(segs: seq<string>)
    requires segs != [] && Clean(segs)
    ensures Split(Join(segs)) == segs
  {
    SplitPiece(segs[0], Join(segs[1..]));
    if |segs| > 1 {
      SplitJoin(segs[1..]);
      assert segs == [segs[0]] + segs[1..];
    } else {
      assert segs == [segs[0]];
    }
  }

  // ---- Relative paths

  function CommonLength(a: seq<string>, b: seq<string>): (n: nat)
    ensures n <= |a| && n <= |b| && a[..n] == b[..n]
    ensures n < |a| && n < |b| ==> a[n] != b[n]
  {
    if a == [] || b == [] || a[0] != b[0] then 0
    else
      var n := CommonLength(a[1..], b[1..]);
      assert a[..n + 1] == [a[0]] + a[1..][..n] && b[..n + 1] == [b[0]] + b[1..][..n];
      n + 1
  }

  function Ups(n: nat): (r: seq<string>)
    ensures |r| == n && forall i :: 0 <= i < n ==> r[i] == ".."
  {
    seq(n, i => "..")
  }

  /** filepath.Rel: climb out of `base`, then down to `target`. */
  function Rel(base: Path, target: Path): Option<string> {
    if !EqualFold(base.volume, target.volume) then None
    else
      var n := CommonLength(base.segs, target.segs);
      var steps := Ups(|base.segs| - n) + target.segs[n..];
      Some(if steps == [] then "." else Join(steps))
  }

  predicate HasPrefix(s: string, prefix: string) { prefix <= s }

  /** The test of the climb: the target is at or below the base. */
  predicate StaysBelow(rel: string) {
    rel == "." || (rel != ".." && !HasPrefix(rel, "../"))
  }

  lemma PrefixIsCommon(a: seq<string>, b: seq<string>)
    ensures CommonLength(a, b) == |a| <==> a <= b
  {
    var n := CommonLength(a, b);
    if a <= b { assert forall i :: 0 <= i < |a| ==> a[i] == b[i]; }
    if n == |a| { assert a[..n] == a; }
  }

  lemma UpPrefix(s: string)
    ensures HasPrefix(s, "../") ==> |s| >= 3 && s[0] == '.' && s[1] == '.' && s[2] == '/'
  {
    if HasPrefix(s, "../") { assert s[2] == "../"[2] && s[0] == "../"[0] && s[1] == "../"[1]; }
  }

  lemma JoinFirst(segs: seq<string>)
    requires segs != [] && CleanSeg(segs[0])
    ensures Join(segs) != ".." && Join(segs) != "." && !HasPrefix(Join(segs), "../")
  {
    var s, first := Join(segs), segs[0];
    assert first <= s;
    UpPrefix(s);
    if |segs| == 1 {
      assert forall i :: 0 <= i < |s| ==> s[i] in first && s[i] != '/';
    } else {
      assert s[|first|] == '/' && |s| > |first|;
      if |first| == 1 {
        assert s[0] == first[0] && s[1] == '/';
      } else if |first| >= 3 {
        assert s[2] == first[2] && s[2] in first;
      } else {
        assert first == [first[0], first[1]] && s[0] == first[0] && s[1] == first[1];
      }
    }
  }

  lemma JoinUps(n: nat, rest: seq<string>)
    requires n > 0
    ensures !StaysBelow(Join(Ups(n) + rest))
  {
    var segs := Ups(n) + rest;
    assert segs[0] == "..";
    if |segs| > 1 {
      assert Join(segs) == ".." + "/" + Join(segs[1..]);
      assert "../" <= Join(segs);
    }
  }

  /** The string test on the relative path decides whether one path is below another; a component
      that merely begins with two dots does not fool it. */
  lemma StaysBelowIffPrefix(base: Path, target: Path)
    requires EqualFold(base.volume, target.volume) && Clean(target.segs)
    ensures StaysBelow(Rel(base, target).value) <==> base.segs <= target.segs
    ensures base.segs <= target.segs && base.segs != target.segs ==>
      Rel(base, target) == Some(Join(target.segs[|base.segs|..]))
    ensures base.segs == target.segs ==> Rel(base, target) == Some(".")
  {
    var n := CommonLength(base.segs, target.segs);
    PrefixIsCommon(base.segs, target.segs);
    var ups, rest := Ups(|base.segs| - n), target.segs[n..];
    if n == |base.segs| {
      assert ups + rest == rest;
      if rest != [] { JoinFirst(rest); }
      if base.segs <= target.segs && rest == [] { assert base.segs == target.segs; }
    } else {
      JoinUps(|base.segs| - n, rest);
    }
  }

  // ---- The common root

  type Files = map<string, string>

  /** filepath.Abs, which may fail; what it returns is absolute and clean. */
  type Resolver = string -> Option<Path>

  ghost predicate Resolves(names: set<string>, resolve: Resolver) {
    forall f :: f in names ==> resolve(f).Some?
  }

  ghost predicate CleanResolver(names: set<string>, resolve: Resolver) {
    forall f :: f in names && resolve(f).Some? ==> Clean(resolve(f).value.segs)
  }

  ghost predicate OneVolume(names: set<string>, resolve: Resolver)
    requires Resolves(names, resolve)
  {
    forall f, g :: f in names && g in names ==> EqualFold(resolve(f).value.volume, resolve(g).value.volume)
  }

  /** `segs` is `p` or a directory above it. */
  ghost predicate Leads(segs: seq<string>, p: Path) { segs <= p.segs }

  ghost predicate Contains(segs: seq<string>, names: set<string>, resolve: Resolver)
    requires Resolves(names, resolve)
  {
    forall f :: f in names ==> Leads(segs, Dir(resolve(f).value))
  }

  /** It contains all the files, and so does no directory below it. */
  ghost predicate Deepest(root: Path, names: set<string>, resolve: Resolver)
    requires Resolves(names, resolve)
  {
    && (forall f :: f in names ==> EqualFold(root.volume, resolve(f).value.volume))
    && Contains(root.segs, names, resolve)
    && forall segs: seq<string> :: Contains(segs, names, resolve) ==> Leads(segs, root)
  }

  ghost predicate Meet(root: Path, a: Path, b: Path) {
    && Leads(root.segs, a) && Leads(root.segs, b)
    && forall segs: seq<string> :: Leads(segs, a) && Leads(segs, b) ==> Leads(segs, root)
  }

  lemma StepUp(at: Path, dir: Path, segs: seq<string>)
    requires !Leads(at.segs, dir) && Leads(segs, at) && Leads(segs, dir)
    ensures Leads(segs, Dir(at))
  {
    assert |segs| == |at.segs| ==> segs == at.segs;
  }

  /** The climb: up from `start` until `dir` is at or below. */
  method Climb(start: Path, dir: Path) returns (root: Option<Path>)
    requires Clean(dir.segs)
    ensures root.Some? <==> EqualFold(start.volume, dir.volume)
    ensures root.Some? ==> root.value.volume == start.volume && Meet(root.value, start, dir)
  {
    var at := start;
    while true
      invariant at.volume == start.volume && Leads(at.segs, start)
      invariant EqualFold(start.volume, dir.volume) ==>
        forall segs: seq<string> :: Leads(segs, start) && Leads(segs, dir) ==> Leads(segs, at)
      decreases |at.segs|
    {
      var rel := Rel(at, dir);
      if rel.Some? { StaysBelowIffPrefix(at, dir); }
      if rel.Some? && StaysBelow(rel.value) {
        return Some(at);
      }
      var parent := Dir(at);
      if parent == at {
        return None;
      }
      forall segs: seq<string> | Leads(segs, start) && Leads(segs, dir) && rel.Some? ensures Leads(segs, parent) {
        StepUp(at, dir, segs);
      }
      at := parent;
    }
  }

  lemma DeepestWith(root: Path, climbed: Path, names: set<string>, f: string, resolve: Resolver)
    requires Resolves(names + {f}, resolve) && Deepest(root, names, resolve)
    requires climbed.volume == root.volume && EqualFold(root.volume, resolve(f).value.volume)
    requires Meet(climbed, root, Dir(resolve(f).value))
    ensures Deepest(climbed, names + {f}, resolve)
  {
    forall g | g in names + {f} ensures Leads(climbed.segs, Dir(resolve(g).value)) {
      if g in names { assert Leads(root.segs, Dir(resolve(g).value)); }
    }
    forall segs: seq<string> | Contains(segs, names + {f}, resolve) ensures Leads(segs, climbed) {
      assert Contains(segs, names, resolve);
      assert Leads(segs, Dir(resolve(f).value));
    }
  }

  /** The root so far, and one more file: the climb, or the file's own directory if it is the first. */
  method Widen(root: Option<Path>, ghost names: set<string>, f: string, abs: Path, resolve: Resolver)
    returns (wider: Option<Path>)
    requires Resolves(names + {f}, resolve) && CleanResolver({f}, resolve) && abs == resolve(f).value
    requires root.None? ==> names == {}
    requires root.Some? ==> Deepest(root.value, names, resolve)
    ensures wider.Some? <==> (root.Some? ==> EqualFold(root.value.volume, abs.volume))
    ensures wider.Some? ==> Deepest(wider.value, names + {f}, resolve)
    ensures root.Some? && wider.Some? ==> wider.value.volume == root.value.volume
    ensures root.None? && wider.Some? ==> wider.value.volume == abs.volume
  {
    var dir := Dir(abs);
    if root.None? {
      return Some(dir);
    }
    wider := Climb(root.value, dir);
    if wider.Some? {
      DeepestWith(root.value, wider.value, names, f, resolve);
    }
  }

  method CommonFileRoot(files: Files, resolve: Resolver) returns (root: Option<Path>)
    requires CleanResolver(files.Keys, resolve)
    ensures root.Some? <==> (|files| >= 2 && Resolves(files.Keys, resolve) && OneVolume(files.Keys, resolve))
    ensures root.Some? ==> Deepest(root.value, files.Keys, resolve)
  {
    if |files| < 2 { return None; }
    root := None;
    var volume := "";
    var todo := files.Keys;
    while todo != {}
      invariant todo <= files.Keys
      invariant Resolves(files.Keys - todo, resolve)
      invariant root.None? <==> todo == files.Keys
      invariant root.None? ==> volume == ""
      invariant root.Some? ==> OneVolume(files.Keys - todo, resolve) && Deepest(root.value, files.Keys - todo, resolve)
      invariant root.Some? ==> EqualFold(volume, root.value.volume)
    {
      var f :| f in todo;
      ghost var done := files.Keys - todo;
      todo := todo - {f};
      assert files.Keys - todo == done + {f};
      var abs := resolve(f);
      if abs.None? { return None; }
      var nextVolume := abs.value.volume;
      if volume == "" {
        volume := nextVolume;
      } else if !EqualFold(volume, nextVolume) {
        return None;
      }
      root := Widen(root, done, f, abs.value, resolve);
      if root.None? { return None; }
    }
  }

  lemma DeepestUnique(a: Path, b: Path, names: set<string>, resolve: Resolver)
    requires Resolves(names, resolve) && Deepest(a, names, resolve) && Deepest(b, names, resolve)
    ensures a.segs == b.segs
  {
    assert Leads(a.segs, b) && Leads(b.segs, a);
  }

  // ---- Names relative to the root

  /** path.Clean: empty and "." pieces go, ".." takes back the piece before it or stays in front of a
      relative path. */
  function Fold(rooted: bool, done: seq<string>, pieces: seq<string>): seq<string>
    decreases pieces
  {
    if pieces == [] then done
    else
      var p, rest := pieces[0], pieces[1..];
      if p == "" || p == "." then Fold(rooted, done, rest)
      else if p == ".." then
        if done != [] && done[|done| - 1] != ".." then Fold(rooted, done[..|done| - 1], rest)
        else if rooted then Fold(rooted, done, rest)
        else Fold(rooted, done + [p], rest)
      else Fold(rooted, done + [p], rest)
  }

  function CleanPath(s: string): string {
    var rooted := s != "" && s[0] == '/';
    var segs := Fold(rooted, [], Split(s));
    if rooted then "/" + Join(segs)
    else if segs == [] then "."
    else Join(segs)
  }

  lemma {:induction false} FoldClean(rooted: bool, done: seq<string>, pieces: seq<string>)
    requires Clean(pieces)
    ensures Fold(rooted, done, pieces) == done + pieces
    decreases pieces
  {
    if pieces == [] {
      assert done + pieces == done;
    } else {
      FoldClean(rooted, done + [pieces[0]], pieces[1..]);
      assert done + [pieces[0]] + pieces[1..] == done + pieces;
    }
  }

  /** A name that is already clean stays as it is. */
  lemma CleanPathKeeps(segs: seq<string>)
    requires segs != [] && Clean(segs)
    ensures CleanPath(Join(segs)) == Join(segs)
  {
    SplitJoin(segs);
    FoldClean(false, [], segs);
    assert [] + segs == segs;
    assert CleanSeg(segs[0]) && segs[0] <= Join(segs) && segs[0][0] in segs[0];
  }

  /** filepath.Base. */
  function Base(f: string): string {
    if f == "" then "."
    else if f[|f| - 1] == '/' then (if |f| == 1 then "/" else Base(f[..|f| - 1]))
    else
      var pieces := Split(f);
      pieces[|pieces| - 1]
  }

  // ---- The last element

  function Slashes(n: nat): string { seq(n, i => '/') }

  /** `last` is the text behind the last separator that is not at the very end. */
  ghost predicate LastElement(f: string, last: string) {
    last != "" && '/' !in last && exists dir: string, n: nat :: EndsDirectory(dir) && f == dir + last + Slashes(n)
  }

  predicate EndsDirectory(dir: string) { dir == "" || dir[|dir| - 1] == '/' }

  lemma {:induction false} SplitAt(s: string, t: string)
    ensures Split(s + "/" + t) == Split(s) + Split(t)
  {
    if s == "" {
      assert s + "/" + t == "/" + t && ("/" + t)[1..] == t;
    } else {
      assert (s + "/" + t)[1..] == s[1..] + "/" + t;
      SplitAt(s[1..], t);
    }
  }

  lemma {:induction false} BaseOfTrailing(s: string, n: nat)
    requires s != "" && s[|s| - 1] != '/'
    ensures Base(s + Slashes(n)) == Base(s)
  {
    if n == 0 {
      assert s + Slashes(0) == s;
    } else {
      assert (s + Slashes(n))[..|s| + n - 1] == s + Slashes(n - 1);
      BaseOfTrailing(s, n - 1);
    }
  }

  lemma SplitOfLast(dir: string, last: string)
    requires '/' !in last && EndsDirectory(dir)
    ensures var pieces := Split(dir + last); pieces[|pieces| - 1] == last
  {
    SplitPiece(last, "");
    if dir == "" {
      assert dir + last == last;
    } else {
      var up := dir[..|dir| - 1];
      assert dir + last == up + "/" + last;
      SplitAt(up, last);
    }
  }

  lemma BaseOfLast(dir: string, last: string)
    requires last != "" && '/' !in last && EndsDirectory(dir)
    ensures Base(dir + last) == last
  {
    assert last[|last| - 1] in last && (dir + last)[|dir + last| - 1] == last[|last| - 1];
    SplitOfLast(dir, last);
  }

  lemma LastIsClean(last: string)
    requires last != "" && '/' !in last
    ensures CleanPath(last) == last
  {
    assert last[0] in last;
    SplitPiece(last, "");
    assert [last][1..] == [] && [] + [last] == [last];
    assert Fold(false, [last], []) == [last];
    assert Fold(false, [], [last]) == if last == "." then [] else [last];
  }

  lemma {:induction false} BaseOfSlashes(n: nat)
    requires n > 0
    ensures Base(Slashes(n)) == "/"
  {
    if n == 1 {
      assert Slashes(1) == "/";
    } else {
      assert Slashes(n)[..n - 1] == Slashes(n - 1);
      BaseOfSlashes(n - 1);
    }
  }

  /** The name a file has on its own: its last element, whatever stands before it and however many
      separators behind it; "." for the empty name and "/" for separators alone. */
  lemma AloneName(f: string)
    ensures forall last: string :: LastElement(f, last) ==> CleanPath(Base(f)) == last
    ensures f == "" ==> CleanPath(Base(f)) == "."
    ensures forall n: nat :: n > 0 && f == Slashes(n) ==> CleanPath(Base(f)) == "/"
  {
    forall last: string | LastElement(f, last) ensures CleanPath(Base(f)) == last {
      var dir: string, n: nat :| EndsDirectory(dir) && f == dir + last + Slashes(n);
      assert (dir + last)[|dir + last| - 1] in last;
      BaseOfTrailing(dir + last, n);
      BaseOfLast(dir, last);
      LastIsClean(last);
    }
    LastIsClean(".");
    assert Split("/") == ["", ""];
    forall n: nat | n > 0 && f == Slashes(n) ensures CleanPath(Base(f)) == "/" {
      BaseOfSlashes(n);
    }
  }

  /** Every other name has a last element. */
  lemma {:induction false} LastElementExists(f: string) returns (n: nat, last: string)
    ensures f == Slashes(n) || LastElement(f, last)
    decreases |f|
  {
    n, last := 0, "";
    if f == "" {
    } else if f[|f| - 1] == '/' {
      var front := f[..|f| - 1];
      n, last := LastElementExists(front);
      if front == Slashes(n) {
        n := n + 1;
        assert f == Slashes(n);
      } else {
        var dir: string, k: nat :| EndsDirectory(dir) && front == dir + last + Slashes(k);
        assert f == dir + last + Slashes(k + 1);
      }
    } else {
      var at := LastPieceStart(f);
      last := f[at..];
      assert f == f[..at] + last + Slashes(0);
    }
  }

  lemma {:induction false} LastPieceStart(f: string) returns (at: nat)
    ensures at <= |f| && EndsDirectory(f[..at]) && '/' !in f[at..]
    decreases |f|
  {
    if f == "" || f[|f| - 1] == '/' {
      at := |f|;
      assert f[..at] == f;
    } else {
      at := LastPieceStart(f[..|f| - 1]);
      assert f[..at] == f[..|f| - 1][..at];
      assert f[at..] == f[..|f| - 1][at..] + [f[|f| - 1]];
    }
  }

  /** What a file is called once the root is known. */
  ghost predicate Named(name: string, root: Path, f: string, p: Path) {
    if p.segs == [] then name == CleanPath(Base(f))
    else root.segs <= p.segs && root.segs != p.segs && name == Join(p.segs[|root.segs|..])
  }

  /** The name a file gets: relative to the root if there is one. */
  ghost predicate NamedWith(name: string, f: string, common: Option<Path>, resolve: Resolver)
    requires common.Some? ==> resolve(f).Some?
  {
    if common.Some? then Named(name, common.value, f, resolve(f).value) else name == CleanPath(Base(f))
  }

  ghost predicate NamedUpTo(names: map<string, string>, done: set<string>, common: Option<Path>, resolve: Resolver)
    requires common.Some? ==> Resolves(done, resolve)
  {
    names.Keys == done && forall f :: f in names ==> NamedWith(names[f], f, common, resolve)
  }

  lemma OneMoreNamed(names: map<string, string>, done: set<string>, common: Option<Path>, resolve: Resolver,
                     f: string, name: string)
    requires common.Some? ==> Resolves(done + {f}, resolve)
    requires NamedUpTo(names, done, common, resolve) && NamedWith(name, f, common, resolve)
    ensures NamedUpTo(names[f := name], done + {f}, common, resolve)
  {
  }

  /** The loop over the files. */
  method NameAll(files: set<string>, common: Option<Path>, resolve: Resolver) returns (names: map<string, string>)
    requires CleanResolver(files, resolve)
    requires common.Some? ==> Resolves(files, resolve) && Deepest(common.value, files, resolve)
    ensures NamedUpTo(names, files, common, resolve)
  {
    names := map[];
    var todo := files;
    ghost var done: set<string> := {};
    while todo != {}
      invariant done <= files && todo == files - done
      invariant NamedUpTo(names, done, common, resolve)
    {
      var f :| f in todo;
      var name := NameOf(f, common, files, resolve);
      OneMoreNamed(names, done, common, resolve, f, name);
      names := names[f := name];
      done := done + {f};
      todo := todo - {f};
    }
    assert done == files;
  }

  method CreateRequestFileNames(files: Files, resolve: Resolver) returns (names: map<string, string>, ghost root: Option<Path>)
    requires CleanResolver(files.Keys, resolve)
    ensures names.Keys == files.Keys
    ensures root.Some? <==> (|files| >= 2 && Resolves(files.Keys, resolve) && OneVolume(files.Keys, resolve))
    ensures root.Some? ==> Deepest(root.value, files.Keys, resolve)
    ensures root.Some? ==> forall f :: f in files ==> Named(names[f], root.value, f, resolve(f).value)
    ensures root.None? ==> forall f, last :: f in files && LastElement(f, last) ==> names[f] == last
    ensures root.None? && "" in files ==> names[""] == "."
    ensures root.None? ==> forall n: nat :: n > 0 && Slashes(n) in files ==> names[Slashes(n)] == "/"
  {
    var common := CommonFileRoot(files, resolve);
    root := common;
    names := NameAll(files.Keys, common, resolve);
    assert forall f :: f in names ==> NamedWith(names[f], f, common, resolve);
    forall f | f in names {
      AloneName(f);
    }
  }

  /** The loop body: the path relative to the root if it stays below it, else the last element. */
  method NameOf(f: string, common: Option<Path>, ghost names: set<string>, resolve: Resolver) returns (name: string)
    requires CleanResolver(names, resolve) && f in names
    requires common.Some? ==> Resolves(names, resolve) && Deepest(common.value, names, resolve)
    ensures common.Some? ==> Named(name, common.value, f, resolve(f).value)
    ensures common.None? ==> name == CleanPath(Base(f))
  {
    name := Base(f);
    if common.Some? {
      var abs := resolve(f);
      if abs.Some? {
        RelativeName(common.value, names, f, resolve);
        var rel := Rel(common.value, abs.value);
        if rel.Some? && rel.value != "." && rel.value != ".." && !HasPrefix(rel.value, "../") {
          name := rel.value;
        }
      }
    }
    name := CleanPath(name);
  }

  /** A file other than the top directory itself lies strictly below the common root. */
  lemma RelativeName(root: Path, names: set<string>, f: string, resolve: Resolver)
    requires Resolves(names, resolve) && CleanResolver(names, resolve) && Deepest(root, names, resolve) && f in names
    ensures var p := resolve(f).value;
      if p.segs == [] then Rel(root, p) == Some(".")
      else
        && root.segs <= p.segs && root.segs != p.segs
        && Rel(root, p) == Some(Join(p.segs[|root.segs|..]))
        && StaysBelow(Rel(root, p).value) && Rel(root, p).value != "."
        && CleanPath(Rel(root, p).value) == Rel(root, p).value
  {
    var p := resolve(f).value;
    assert Leads(root.segs, Dir(p));
    StaysBelowIffPrefix(root, p);
    if p.segs != [] {
      var rest := p.segs[|root.segs|..];
      JoinFirst(rest);
      CleanPathKeeps(rest);
    }
  }

  // ---- Names tell files apart

  /** filepath.Abs on Unix: a rooted name is cleaned, another is first put behind the working directory. */
  function Abs(cwd: seq<string>, f: string): Path {
    Path("", Fold(true, if f != "" && f[0] == '/' then [] else cwd, Split(f)))
  }

  lemma {:induction false} FoldKeepsClean(done: seq<string>, pieces: seq<string>)
    requires Clean(done) && forall i :: 0 <= i < |pieces| ==> '/' !in pieces[i]
    ensures Clean(Fold(true, done, pieces))
    decreases pieces
  {
    if pieces != [] {
      var p, rest := pieces[0], pieces[1..];
      var next := if p == "" || p == "." then done
        else if p == ".." then (if done != [] then done[..|done| - 1] else done)
        else done + [p];
      assert p == ".." && done != [] ==> CleanSeg(done[|done| - 1]);
      FoldKeepsClean(next, rest);
    }
  }

  lemma {:induction false} SplitHasNoSeparator(s: string)
    ensures forall i :: 0 <= i < |Split(s)| ==> '/' !in Split(s)[i]
  {
    if s != "" {
      SplitHasNoSeparator(s[1..]);
    }
  }

  /** What Abs gives is clean. */
  lemma AbsIsClean(cwd: seq<string>, f: string)
    requires Clean(cwd)
    ensures Clean(Abs(cwd, f).segs)
  {
    SplitHasNoSeparator(f);
    FoldKeepsClean(if f != "" && f[0] == '/' then [] else cwd, Split(f));
  }

  lemma {:induction false} FoldSnoc(done: seq<string>, pieces: seq<string>, last: string)
    ensures last == "" ==> Fold(true, done, pieces + [last]) == Fold(true, done, pieces)
    ensures CleanSeg(last) ==> Fold(true, done, pieces + [last]) == Fold(true, done, pieces) + [last]
    decreases pieces
  {
    if pieces == [] {
      assert pieces + [last] == [last];
    } else {
      var p, rest := pieces[0], pieces[1..];
      assert (pieces + [last])[1..] == rest + [last];
      FoldSnoc(done, rest, last);
      FoldSnoc(done + [p], rest, last);
      if done != [] { FoldSnoc(done[..|done| - 1], rest, last); }
    }
  }

  lemma {:induction false} SplitSnoc(s: string)
    ensures Split(s + "/") == Split(s) + [""]
  {
    if s == "" {
      assert s + "/" == "/" && "/"[1..] == "";
    } else {
      assert (s + "/")[1..] == s[1..] + "/";
      SplitSnoc(s[1..]);
    }
  }

  /** A clean relative path resolves to itself below the working directory, a clean rooted one to itself. */
  lemma AbsOfClean(cwd: seq<string>, segs: seq<string>)
    requires segs != [] && Clean(segs)
    ensures Abs(cwd, Join(segs)).segs == cwd + segs && Abs(cwd, "/" + Join(segs)).segs == segs
  {
    SplitJoin(segs);
    FoldClean(true, cwd, segs);
    assert CleanSeg(segs[0]) && segs[0] <= Join(segs) && segs[0][0] in segs[0];
    assert ("/" + Join(segs))[1..] == Join(segs);
    assert ([""] + segs)[1..] == segs;
    FoldClean(true, [], segs);
    assert [] + segs == segs;
  }

  /** A name whose last element is a plain one does not resolve to the top directory. */
  lemma {:induction false} PlainBaseStays(done: seq<string>, f: string)
    requires CleanSeg(Base(f))
    ensures Fold(true, done, Split(f)) != []
    decreases |f|
  {
    if f[|f| - 1] == '/' {
      var init := f[..|f| - 1];
      assert f == init + "/";
      SplitSnoc(init);
      FoldSnoc(done, Split(init), "");
      PlainBaseStays(done, init);
    } else {
      var pieces := Split(f);
      assert pieces == pieces[..|pieces| - 1] + [Base(f)];
      FoldSnoc(done, pieces[..|pieces| - 1], Base(f));
    }
  }

  /** What a file is called: a file at the top directory has no plain last element. */
  ghost predicate FileNamed(name: string, root: Path, f: string, p: Path) {
    Clean(p.segs) && Named(name, root, f, p) && (p.segs == [] ==> !CleanSeg(Base(f)))
  }

  /** The names of files that Abs resolves are named so. */
  lemma AbsFileNamed(cwd: seq<string>, name: string, root: Path, f: string)
    requires Clean(cwd) && Named(name, root, f, Abs(cwd, f))
    ensures FileNamed(name, root, f, Abs(cwd, f))
  {
    AbsIsClean(cwd, f);
    if CleanSeg(Base(f)) {
      PlainBaseStays(if f != "" && f[0] == '/' then [] else cwd, f);
    }
  }

  lemma {:induction false} BaseIsPiece(f: string)
    ensures Base(f) == "." || Base(f) == "/" || (Base(f) != "" && '/' !in Base(f))
    decreases |f|
  {
    if f != "" && f[|f| - 1] == '/' {
      if |f| > 1 { BaseIsPiece(f[..|f| - 1]); }
    } else if f != "" {
      SplitHasNoSeparator(f);
      LastPieceNonempty(f);
    }
  }

  lemma {:induction false} LastPieceNonempty(f: string)
    requires f != "" && f[|f| - 1] != '/'
    ensures Split(f)[|Split(f)| - 1] != ""
  {
    if |f| > 1 {
      LastPieceNonempty(f[1..]);
    } else {
      assert f[1..] == "" && Split("") == [""];
    }
  }

  /** The name of a file at the top directory is no name of a path below it. */
  lemma TopName(name: string, root: Path, f: string, p: Path)
    requires FileNamed(name, root, f, p) && p.segs == []
    ensures name == "." || name == ".." || name == "/"
  {
    BaseIsPiece(f);
    var b := Base(f);
    if b == "." {
      assert Split(".") == ["."];
    } else if b == ".." {
      assert Split("..") == [".."];
    } else {
      assert b == "/";
      assert Split("/") == ["", ""];
    }
  }

  lemma BelowName(name: string, root: Path, f: string, p: Path)
    requires FileNamed(name, root, f, p) && p.segs != []
    ensures name != "." && name != ".." && name != "/"
    ensures root.segs + Split(name) == p.segs
  {
    var rest := p.segs[|root.segs|..];
    JoinFirst(rest);
    SplitJoin(rest);
    assert p.segs == root.segs + rest;
    assert Split("/") == ["", ""];
    assert !CleanSeg(rest[0]) || rest != ["", ""];
  }

  /** Files with one name are one file, the top directory included; and below it a name rejoined with
      the root is the path, so that files of one path have one name. */
  lemma NamesDistinctAndRejoin(root: Path, nameF: string, nameG: string, f: string, g: string, p: Path, q: Path)
    requires FileNamed(nameF, root, f, p) && FileNamed(nameG, root, g, q)
    ensures nameF == nameG ==> p.segs == q.segs
    ensures p.segs != [] ==> root.segs + Split(nameF) == p.segs
    ensures p.segs == q.segs != [] ==> nameF == nameG
  {
    if p.segs == [] { TopName(nameF, root, f, p); } else { BelowName(nameF, root, f, p); }
    if q.segs == [] { TopName(nameG, root, g, q); } else { BelowName(nameG, root, g, q); }
  }
}
