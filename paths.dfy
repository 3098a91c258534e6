/** The lexical part of Go's path/filepath on a Unix host: `Clean`, `Join`
    and `Dir`, with the prefix test `unzip` uses to stop zip-slip.

    A path string is split at '/' into segments; `Clean` folds the segments
    through a stack (dropping "" and ".", letting ".." cancel the preceding
    name, dropping ".." at the root) and renders the stack back as a
    string. */
module Paths {
  import opened Strings

  const Sep: char := '/'

  /** strings.Split(s, "/") */
  function Split(s: string): (segs: seq<string>)
    ensures |segs| >= 1
    ensures forall i :: 0 <= i < |segs| ==> Sep !in segs[i]
  {
    if s == [] then [""]
    else if s[0] == Sep then [""] + Split(s[1..])
    else
      var rest := Split(s[1..]);
      [[s[0]] + rest[0]] + rest[1..]
  }

  /** strings.Join(xs, "/") */
  function JoinParts(xs: seq<string>): string {
    if |xs| == 0 then ""
    else if |xs| == 1 then xs[0]
    else xs[0] + [Sep] + JoinParts(xs[1..])
  }

  /** Splitting at '/' and joining with '/' give back the string. */
  lemma {:induction false} JoinSplit(s: string)
    ensures JoinParts(Split(s)) == s
  {
    if s != [] {
      JoinSplit(s[1..]);
      var rest := Split(s[1..]);
      if s[0] == Sep {
        assert Split(s) == [""] + rest;
        assert JoinParts(Split(s)) == [Sep] + JoinParts(rest);
        assert s == [Sep] + s[1..];
      } else if |rest| == 1 {
        assert JoinParts(Split(s)) == [s[0]] + rest[0];
        assert s == [s[0]] + s[1..];
      } else {
        var segs := Split(s);
        assert segs[1..] == rest[1..];
        assert JoinParts(rest) == rest[0] + [Sep] + JoinParts(rest[1..]);
        assert JoinParts(segs) == [s[0]] + rest[0] + [Sep] + JoinParts(rest[1..]);
        assert s == [s[0]] + s[1..];
      }
    }
  }

  /** Segments joined at a separator split at that separator. */
  lemma {:induction false} SplitConcat(a: string, b: string)
    ensures Split(a + [Sep] + b) == Split(a) + Split(b)
  {
    if a == [] {
      assert a + [Sep] + b == [Sep] + b;
      assert ([Sep] + b)[1..] == b;
    } else {
      var ab := a + [Sep] + b;
      assert ab[0] == a[0];
      assert ab[1..] == a[1..] + [Sep] + b;
      SplitConcat(a[1..], b);
    }
  }

  lemma {:induction false} SplitPlain(w: string)
    requires Sep !in w
    ensures Split(w) == [w]
  {
    if w != [] {
      assert w[0] != Sep;
      assert Sep !in w[1..];
      SplitPlain(w[1..]);
      assert w == [w[0]] + w[1..];
    }
  }

  /** A component of a cleaned path: non-empty, not ".", without '/'. */
  predicate IsComponent(c: string) {
    c != "" && c != "." && Sep !in c
  }

  /** The components a `Clean` result can hold: any ".." come first, and a
      rooted path has none. */
  predicate CleanShape(rooted: bool, parts: seq<string>) {
    && (forall i :: 0 <= i < |parts| ==> IsComponent(parts[i]))
    && (rooted ==> forall i :: 0 <= i < |parts| ==> parts[i] != "..")
    && (forall i, j :: 0 <= i < j < |parts| && parts[j] == ".." ==> parts[i] == "..")
  }

  /** One segment of Clean's scan. */
  function Step(rooted: bool, out: seq<string>, seg: string): seq<string> {
    if seg == "" || seg == "." then out
    else if seg == ".." then
      if |out| > 0 && out[|out| - 1] != ".." then out[..|out| - 1]
      else if rooted then out
      else out + [".."]
    else out + [seg]
  }

  /** Clean's scan over a list of segments, from the left. */
  function Fold(rooted: bool, out: seq<string>, segs: seq<string>): seq<string>
    decreases |segs|
  {
    if segs == [] then out
    else Step(rooted, Fold(rooted, out, segs[..|segs| - 1]), segs[|segs| - 1])
  }

  lemma StepKeepsShape(rooted: bool, out: seq<string>, seg: string)
    requires CleanShape(rooted, out)
    requires Sep !in seg
    ensures CleanShape(rooted, Step(rooted, out, seg))
  {
  }

  lemma {:induction false} FoldKeepsShape(rooted: bool, out: seq<string>, segs: seq<string>)
    requires CleanShape(rooted, out)
    requires forall i :: 0 <= i < |segs| ==> Sep !in segs[i]
    ensures CleanShape(rooted, Fold(rooted, out, segs))
    decreases |segs|
  {
    if segs != [] {
      FoldKeepsShape(rooted, out, segs[..|segs| - 1]);
      StepKeepsShape(rooted, Fold(rooted, out, segs[..|segs| - 1]), segs[|segs| - 1]);
    }
  }

  /** Scanning a concatenation scans the first part, then the second. */
  lemma {:induction false} FoldConcat(rooted: bool, out: seq<string>, a: seq<string>, b: seq<string>)
    ensures Fold(rooted, out, a + b) == Fold(rooted, Fold(rooted, out, a), b)
    decreases |b|
  {
    if b == [] {
      assert a + b == a;
    } else {
      var ab := a + b;
      assert ab[..|ab| - 1] == a + b[..|b| - 1];
      assert ab[|ab| - 1] == b[|b| - 1];
      FoldConcat(rooted, out, a, b[..|b| - 1]);
    }
  }

  /** Scanning components that are already clean reproduces them. */
  lemma {:induction false} FoldClean(rooted: bool, parts: seq<string>)
    requires CleanShape(rooted, parts)
    ensures Fold(rooted, [], parts) == parts
    decreases |parts|
  {
    if parts != [] {
      var init := parts[..|parts| - 1];
      assert CleanShape(rooted, init);
      FoldClean(rooted, init);
      var last := parts[|parts| - 1];
      if last == ".." {
        assert forall i :: 0 <= i < |init| ==> init[i] == "..";
      }
      assert init + [last] == parts;
    }
  }

  predicate IsRooted(s: string) {
    |s| > 0 && s[0] == Sep
  }

  /** The components of filepath.Clean(s). */
  function CleanParts(s: string): (parts: seq<string>)
    ensures CleanShape(IsRooted(s), parts)
  {
    FoldKeepsShape(IsRooted(s), [], Split(s));
    Fold(IsRooted(s), [], Split(s))
  }

  /** The string filepath.Clean returns for a rooted flag and components:
      "/" for the bare root, "." for the empty relative path. */
  function Render(rooted: bool, parts: seq<string>): string {
    if rooted then [Sep] + JoinParts(parts)
    else if parts == [] then "."
    else JoinParts(parts)
  }

  /** filepath.Clean */
  function Clean(s: string): string {
    Render(IsRooted(s), CleanParts(s))
  }

  /** filepath.Join: the elements from the first non-empty one on, joined
      with '/' and cleaned; "" when every element is empty. */
  function Join(elems: seq<string>): string
    decreases |elems|
  {
    if elems == [] then ""
    else if elems[0] != "" then Clean(JoinParts(elems))
    else Join(elems[1..])
  }

  lemma {:induction false} JoinPartsNonEmpty(xs: seq<string>)
    requires xs != [] && IsComponent(xs[0])
    ensures JoinParts(xs) != [] && JoinParts(xs)[0] == xs[0][0]
  {
  }

  lemma {:induction false} JoinPartsAppend(xs: seq<string>, ys: seq<string>)
    requires xs != [] && ys != []
    ensures JoinParts(xs + ys) == JoinParts(xs) + [Sep] + JoinParts(ys)
    decreases |xs|
  {
    if |xs| == 1 {
      assert (xs + ys)[1..] == ys;
    } else {
      assert (xs + ys)[1..] == xs[1..] + ys;
      JoinPartsAppend(xs[1..], ys);
    }
  }

  /** Joining components and splitting again gives them back. */
  lemma {:induction false} SplitJoin(xs: seq<string>)
    requires xs != []
    requires forall i :: 0 <= i < |xs| ==> Sep !in xs[i]
    ensures Split(JoinParts(xs)) == xs
    decreases |xs|
  {
    if |xs| == 1 {
      SplitPlain(xs[0]);
    } else {
      SplitConcat(xs[0], JoinParts(xs[1..]));
      SplitPlain(xs[0]);
      SplitJoin(xs[1..]);
    }
  }

  /** A rendered clean path: the rooted flag and the components can be read
      back from the string. */
  lemma RenderParse(rooted: bool, parts: seq<string>)
    requires CleanShape(rooted, parts)
    ensures IsRooted(Render(rooted, parts)) == rooted
    ensures CleanParts(Render(rooted, parts)) == parts
  {
    var s := Render(rooted, parts);
    if rooted {
      if parts == [] {
        assert s == "/";
        assert Split(s) == ["", ""];
        assert ["", ""][..1] == [""] && [""][..0] == [];
      } else {
        JoinPartsNonEmpty(parts);
        SplitConcat("", JoinParts(parts));
        assert s == "" + [Sep] + JoinParts(parts);
        SplitJoin(parts);
        FoldConcat(rooted, [], [""], parts);
        FoldClean(rooted, parts);
      }
    } else if parts == [] {
      assert s == ".";
      SplitPlain(".");
    } else {
      JoinPartsNonEmpty(parts);
      SplitJoin(parts);
      FoldClean(rooted, parts);
    }
  }

  /** filepath.Clean is idempotent. */
  lemma CleanIdempotent(s: string)
    ensures Clean(Clean(s)) == Clean(s)
    ensures IsRooted(Clean(s)) == IsRooted(s) && CleanParts(Clean(s)) == CleanParts(s)
  {
    RenderParse(IsRooted(s), CleanParts(s));
  }

  /** The cleaned components of `a/b`: those of `a` with the segments of
      `b` scanned on top. */
  lemma CleanPartsOfChild(a: string, b: string)
    requires a != ""
    ensures IsRooted(a + [Sep] + b) == IsRooted(a)
    ensures CleanParts(a + [Sep] + b) == Fold(IsRooted(a), CleanParts(a), Split(b))
  {
    SplitConcat(a, b);
    FoldConcat(IsRooted(a), [], Split(a), Split(b));
  }

  /** Joining a plain file name onto a directory puts that name directly
      below the directory, whatever the directory string looks like. */
  lemma JoinChild(dir: string, name: string)
    requires IsComponent(name) && name != ".."
    ensures IsRooted(Join([dir, name])) == IsRooted(dir)
    ensures CleanParts(Join([dir, name])) == CleanParts(dir) + [name]
  {
    SplitPlain(name);
    if dir == "" {
      assert Join([dir, name]) == Join([name]);
      assert [name][1..] == [];
      assert Join([name]) == Clean(JoinParts([name]));
      assert Split(name) == [name] && [name][..0] == [];
      CleanIdempotent(name);
    } else {
      assert JoinParts([dir, name]) == dir + [Sep] + name;
      CleanPartsOfChild(dir, name);
      assert Fold(IsRooted(dir), CleanParts(dir), [name]) == CleanParts(dir) + [name] by {
        assert [name][..0] == [];
      }
      CleanIdempotent(dir + [Sep] + name);
    }
  }

  /** filepath.HasPrefix(fpath, filepath.Clean(dest) + "/") */
  predicate IsSafeEntry(dest: string, name: string) {
    HasPrefix(Join([dest, name]), Clean(dest) + [Sep])
  }

  /** The cleaned path `p` lies strictly below `q`: same root, and `q`'s
      components followed by at least one more. */
  predicate StrictlyBelow(pRooted: bool, p: seq<string>, qRooted: bool, q: seq<string>) {
    pRooted == qRooted && |q| < |p| && p[..|q|] == q
  }

  /** If `JoinParts(q) + "/"` starts `JoinParts(p)`, then `q` is a proper
      prefix of `p`. */
  lemma {:induction false} JoinedPrefix(q: seq<string>, p: seq<string>)
    requires q != []
    requires forall i :: 0 <= i < |q| ==> IsComponent(q[i])
    requires forall i :: 0 <= i < |p| ==> IsComponent(p[i])
    requires HasPrefix(JoinParts(p), JoinParts(q) + [Sep])
    ensures |q| < |p| && p[..|q|] == q
    decreases |q|
  {
    var jp, jq := JoinParts(p), JoinParts(q) + [Sep];
    var a := q[0];
    assert jq[..|a|] == a && jq[|a|] == Sep;
    if p == [] {
      assert false;
    }
    var b := p[0];
    assert jp[..|b|] == b;
    assert |b| < |jp| ==> jp[|b|] == Sep;
    if |a| < |b| {
      assert false;
    } else if |b| < |a| {
      assert false;
    }
    assert a == jq[..|a|] == jp[..|a|] == b;
    if |p| == 1 {
      assert false;
    }
    if |q| > 1 {
      var jq' := JoinParts(q[1..]) + [Sep];
      var jp' := JoinParts(p[1..]);
      assert jp == b + [Sep] + jp';
      assert jq == a + [Sep] + jq';
      assert jp'[..|jq'|] == jp[|a| + 1..|a| + 1 + |jq'|] == jq[|a| + 1..] == jq';
      JoinedPrefix(q[1..], p[1..]);
      assert p == [p[0]] + p[1..];
      assert q == [q[0]] + q[1..];
    }
  }

  /** A rendered clean path never starts with "//" or "./". */
  lemma RenderNoSpecialPrefix(rooted: bool, parts: seq<string>)
    requires CleanShape(rooted, parts)
    ensures !HasPrefix(Render(rooted, parts), "//")
    ensures !HasPrefix(Render(rooted, parts), "./")
  {
    var s := Render(rooted, parts);
    if parts != [] {
      JoinPartsNonEmpty(parts);
      var c := parts[0];
      assert c[0] in c;
      assert if rooted then s[1] == c[0] else s[0] == c[0];
      if !rooted {
        assert JoinParts(parts)[..|c|] == c;
        if |c| == 1 {
          assert c == [c[0]];
        } else {
          assert c[1] in c;
        }
      }
    }
  }

  /** A rendered clean path that starts with the rendering of `q` plus "/"
      lies strictly below `q`. */
  lemma RenderPrefixSound(pRooted: bool, p: seq<string>, qRooted: bool, q: seq<string>)
    requires CleanShape(pRooted, p) && CleanShape(qRooted, q)
    requires HasPrefix(Render(pRooted, p), Render(qRooted, q) + [Sep])
    ensures q != [] && StrictlyBelow(pRooted, p, qRooted, q)
  {
    var s, t := Render(pRooted, p), Render(qRooted, q) + [Sep];
    RenderNoSpecialPrefix(pRooted, p);
    assert q == [] ==> t == "//" || t == "./";
    if q == [] {
      assert false;
    }
    JoinPartsNonEmpty(q);
    assert q[0][0] in q[0];
    if p != [] {
      JoinPartsNonEmpty(p);
      assert p[0][0] in p[0];
    }
    assert s[0] == t[0];
    if qRooted {
      assert t == [Sep] + (JoinParts(q) + [Sep]);
      assert pRooted;
      if p == [] {
        assert false;
      }
      assert s[1..][..|t| - 1] == t[1..];
    } else {
      assert !pRooted;
      if p == [] {
        assert false;
      }
    }
    JoinedPrefix(q, p);
  }

  /** A rendered clean path strictly below `q` starts with the rendering of
      `q` plus "/". */
  lemma RenderPrefixComplete(pRooted: bool, p: seq<string>, qRooted: bool, q: seq<string>)
    requires q != [] && StrictlyBelow(pRooted, p, qRooted, q)
    ensures HasPrefix(Render(pRooted, p), Render(qRooted, q) + [Sep])
  {
    var s, t := Render(pRooted, p), Render(qRooted, q) + [Sep];
    var rest := p[|q|..];
    assert p == q + rest;
    JoinPartsAppend(q, rest);
    if pRooted {
      assert s == [Sep] + JoinParts(q) + [Sep] + JoinParts(rest);
    } else {
      assert s == JoinParts(q) + [Sep] + JoinParts(rest);
    }
    assert s[..|t|] == t;
  }

  /** Both directions together. */
  lemma RenderPrefix(pRooted: bool, p: seq<string>, qRooted: bool, q: seq<string>)
    requires CleanShape(pRooted, p) && CleanShape(qRooted, q)
    ensures HasPrefix(Render(pRooted, p), Render(qRooted, q) + [Sep])
        <==> q != [] && StrictlyBelow(pRooted, p, qRooted, q)
  {
    if HasPrefix(Render(pRooted, p), Render(qRooted, q) + [Sep]) {
      RenderPrefixSound(pRooted, p, qRooted, q);
    }
    if q != [] && StrictlyBelow(pRooted, p, qRooted, q) {
      RenderPrefixComplete(pRooted, p, qRooted, q);
    }
  }

  /** filepath.Join of two elements, the first non-empty. */
  lemma JoinTwo(dir: string, name: string)
    requires dir != ""
    ensures Join([dir, name]) == Clean(dir + [Sep] + name)
  {
    assert [dir, name][1..] == [name];
    assert JoinParts([dir, name]) == dir + [Sep] + name;
  }

  /** Zip-slip guard, soundness and completeness: an entry passes the check
      in `unzip` exactly when `dest` cleans to neither "." nor "/" and the
      joined path cleans to a path strictly below the cleaned `dest`. */
  lemma SafeEntryCharacterisation(dest: string, name: string)
    ensures IsSafeEntry(dest, name) <==>
              dest != "" && CleanParts(dest) != [] &&
              StrictlyBelow(IsRooted(Join([dest, name])), CleanParts(Join([dest, name])),
                            IsRooted(dest), CleanParts(dest))
  {
    var fpath := Join([dest, name]);
    var q := CleanParts(dest);
    if dest == "" {
      assert q == [] by {
        assert Split(dest) == [""];
        assert Split(dest)[..0] == [];
      }
      assert Clean(dest) + [Sep] == "./";
      if name == "" {
        assert [dest, name][1..] == [""] && [""][1..] == [];
        assert Join([""]) == Join([]) == "";
        assert fpath == Join([""]);
      } else {
        assert fpath == Join([name]);
        assert [dest, name][1..] == [name];
        assert fpath == Clean(name);
        RenderNoSpecialPrefix(IsRooted(name), CleanParts(name));
      }
    } else {
      JoinTwo(dest, name);
      CleanIdempotent(dest + [Sep] + name);
      CleanPartsOfChild(dest, name);
      RenderPrefix(IsRooted(dest), CleanParts(dest + [Sep] + name), IsRooted(dest), q);
    }
  }

  /** When the cleaned destination is rooted or names at least one real
      directory, an accepted entry adds no ".." after it: the target is
      inside `dest` even when read one component at a time. */
  lemma SafeEntryHasNoParentStep(dest: string, name: string, k: int)
    requires IsSafeEntry(dest, name)
    requires IsRooted(dest) || exists i :: 0 <= i < |CleanParts(dest)| && CleanParts(dest)[i] != ".."
    requires |CleanParts(dest)| <= k < |CleanParts(Join([dest, name]))|
    ensures CleanParts(Join([dest, name]))[k] != ".."
  {
    SafeEntryCharacterisation(dest, name);
    var q := CleanParts(dest);
    var p := CleanParts(Join([dest, name]));
    if !IsRooted(dest) {
      var i :| 0 <= i < |q| && q[i] != "..";
      assert p[i] == q[i];
    }
  }

  /** The names the check refuses in every destination: the empty name and
      ".", which would resolve to `dest` itself. */
  lemma SelfEntriesRejected(dest: string)
    ensures !IsSafeEntry(dest, "")
    ensures !IsSafeEntry(dest, ".")
  {
    SafeEntryCharacterisation(dest, "");
    SafeEntryCharacterisation(dest, ".");
    if dest != "" {
      CleanPartsOfChild(dest, "");
      CleanPartsOfChild(dest, ".");
      SplitPlain("");
      SplitPlain(".");
      assert [""][..0] == [] && ["."][..0] == [];
      JoinTwo(dest, "");
      JoinTwo(dest, ".");
      CleanIdempotent(dest + [Sep] + "");
      CleanIdempotent(dest + [Sep] + ".");
    }
  }

  /** The index of the last '/' in `s`, or -1. */
  function LastSep(s: string): (i: int)
    ensures -1 <= i < |s|
    ensures i >= 0 ==> s[i] == Sep
    ensures forall j :: i < j < |s| ==> s[j] != Sep
  {
    if s == [] then -1
    else if s[|s| - 1] == Sep then |s| - 1
    else LastSep(s[..|s| - 1])
  }

  /** filepath.Dir: everything up to the last separator, cleaned. */
  function Dir(s: string): string {
    Clean(s[..LastSep(s) + 1])
  }

  lemma LastSepAfter(a: string, b: string)
    requires Sep !in b
    ensures LastSep(a + [Sep] + b) == |a|
  {
    var s := a + [Sep] + b;
    var i := LastSep(s);
    assert s[|a|] == Sep;
  }

  /** Dir of a path with a single component: "/" or ".". */
  lemma DirOfSingle(rooted: bool, x: string)
    requires IsComponent(x)
    ensures IsRooted(Dir(Render(rooted, [x]))) == rooted
    ensures CleanParts(Dir(Render(rooted, [x]))) == []
  {
    var s := Render(rooted, [x]);
    if rooted {
      assert s == [Sep] + x;
      LastSepAfter("", x);
      assert s[..1] == "/" == Render(true, []);
      RenderParse(true, []);
    } else {
      assert s == x;
      assert LastSep(s) == -1;
      assert s[..0] == "";
      assert Split("") == [""] && [""][..0] == [];
    }
  }

  /** Dir of a path with two or more components drops the last one. */
  lemma DirOfNested(rooted: bool, init: seq<string>, x: string)
    requires CleanShape(rooted, init) && init != [] && IsComponent(x)
    ensures IsRooted(Dir(Render(rooted, init + [x]))) == rooted
    ensures CleanParts(Dir(Render(rooted, init + [x]))) == init
  {
    var s := Render(rooted, init + [x]);
    JoinPartsAppend(init, [x]);
    var a := Render(rooted, init);
    assert s == a + [Sep] + x;
    LastSepAfter(a, x);
    assert s[..LastSep(s) + 1] == a + [Sep] + "";
    JoinPartsNonEmpty(init);
    CleanPartsOfChild(a, "");
    assert [""][..0] == [];
    RenderParse(rooted, init);
    CleanIdempotent(a + [Sep] + "");
  }

  /** The directory of a clean path with at least one component is that
      path without its last component. */
  lemma DirOfClean(rooted: bool, parts: seq<string>)
    requires CleanShape(rooted, parts) && parts != []
    ensures IsRooted(Dir(Render(rooted, parts))) == rooted
    ensures CleanParts(Dir(Render(rooted, parts))) == parts[..|parts| - 1]
  {
    var init, x := parts[..|parts| - 1], parts[|parts| - 1];
    assert parts == init + [x];
    if init == [] {
      DirOfSingle(rooted, x);
    } else {
      assert CleanShape(rooted, init);
      DirOfNested(rooted, init, x);
    }
  }

  /** A path `p` lies strictly inside the directory `dest`, component by
      component, and `dest` is neither "" nor "." nor "/". */
  predicate StrictlyInside(dest: string, p: string) {
    dest != "" && CleanParts(dest) != [] &&
    StrictlyBelow(IsRooted(p), CleanParts(p), IsRooted(dest), CleanParts(dest))
  }

  /** A path `p` is `dest` itself or lies inside it. */
  predicate Within(dest: string, p: string) {
    var q, r := CleanParts(dest), CleanParts(p);
    IsRooted(p) == IsRooted(dest) && |q| <= |r| && r[..|q|] == q
  }

  /** The zip-slip guard, restated: an entry is accepted exactly when the
      joined path is strictly inside `dest`. */
  lemma SafeEntryInside(dest: string, name: string)
    ensures IsSafeEntry(dest, name) <==> StrictlyInside(dest, Join([dest, name]))
  {
    SafeEntryCharacterisation(dest, name);
  }

  /** The directory `unzip` creates for an accepted file entry is `dest`
      or lies inside it. */
  lemma SafeEntryParentWithin(dest: string, name: string)
    requires IsSafeEntry(dest, name)
    ensures Within(dest, Dir(Join([dest, name])))
  {
    var fpath := Join([dest, name]);
    SafeEntryCharacterisation(dest, name);
    JoinTwo(dest, name);
    DirOfClean(IsRooted(fpath), CleanParts(fpath));
    CleanIdempotent(dest + [Sep] + name);
    assert fpath == Render(IsRooted(fpath), CleanParts(fpath));
  }

  /** A path strictly inside `dest` is within it. */
  lemma InsideIsWithin(dest: string, p: string)
    requires StrictlyInside(dest, p)
    ensures Within(dest, p)
  {
  }

  lemma ClimbPieces()
    ensures Split("../evil") == ["..", "evil"]
    ensures CleanParts("..") == [".."] && !IsRooted("..")
  {
    SplitPlain("..");
    SplitPlain("evil");
    assert "../evil" == ".." + [Sep] + "evil";
    SplitConcat("..", "evil");
    assert [".."][..0] == [];
  }

  lemma ClimbFold()
    ensures Fold(false, [".."], ["..", "evil"]) == ["..", "..", "evil"]
  {
    assert ["..", "evil"][..1] == [".."] && [".."][..0] == [];
    assert Step(false, [".."], "..") == ["..", ".."];
  }

  /** Going through a ".." only destination, the guard admits entries that
      climb above it: `dest` ".." accepts "../evil", which `Join` resolves
      to "../../evil". Lexically below "..", physically not inside it. */
  lemma ParentOnlyDestAdmitsClimb()
    ensures IsSafeEntry("..", "../evil")
    ensures IsRooted(Join(["..", "../evil"])) == false
    ensures CleanParts(Join(["..", "../evil"])) == ["..", "..", "evil"]
  {
    var dest, name := "..", "../evil";
    ClimbPieces();
    ClimbFold();
    JoinTwo(dest, name);
    CleanPartsOfChild(dest, name);
    CleanIdempotent(dest + [Sep] + name);
    SafeEntryCharacterisation(dest, name);
  }

  /** A plain name is its own cleaned form. */
  lemma PlainCleanParts(c: string)
    requires IsComponent(c) && c != ".."
    ensures !IsRooted(c)
    ensures CleanParts(c) == [c]
  {
    SplitPlain(c);
    assert [c][..0] == [];
    assert c[0] in c;
    assert Fold(false, [], [c]) == Step(false, [], c) == [c];
  }

  lemma JoinThreeFromRoot(sub: string, leaf: string)
    requires IsComponent(sub) && sub != ".."
    requires IsComponent(leaf) && leaf != ".."
    ensures !IsRooted(Join(["", sub, leaf]))
    ensures CleanParts(Join(["", sub, leaf])) == [sub, leaf]
  {
    assert Join(["", sub, leaf]) == Join([sub, leaf]) by {
      assert ["", sub, leaf][1..] == [sub, leaf];
    }
    JoinChild(sub, leaf);
    PlainCleanParts(sub);
  }

  lemma JoinThreeFromBase(base: string, sub: string, leaf: string)
    requires base != ""
    requires IsComponent(sub) && sub != ".."
    requires IsComponent(leaf) && leaf != ".."
    ensures IsRooted(Join([base, sub, leaf])) == IsRooted(base)
    ensures CleanParts(Join([base, sub, leaf])) == CleanParts(base) + [sub, leaf]
  {
    var mid := base + [Sep] + sub;
    var j := mid + [Sep] + leaf;
    assert JoinParts([base, sub, leaf]) == j by {
      assert [base, sub, leaf][1..] == [sub, leaf];
      assert [sub, leaf][1..] == [leaf];
      assert JoinParts([sub, leaf]) == sub + [Sep] + leaf;
    }
    SplitPlain(sub);
    SplitPlain(leaf);
    assert [sub][..0] == [] && [leaf][..0] == [];
    CleanPartsOfChild(base, sub);
    CleanPartsOfChild(mid, leaf);
    assert CleanParts(j) == CleanParts(base) + [sub] + [leaf];
    CleanIdempotent(j);
  }

  /** The cleaned form of `filepath.Join(base, sub, leaf)` when `sub` and
      `leaf` are plain names: `base`'s components followed by those two. */
  lemma JoinThree(base: string, sub: string, leaf: string)
    requires IsComponent(sub) && sub != ".."
    requires IsComponent(leaf) && leaf != ".."
    ensures IsRooted(Join([base, sub, leaf])) == IsRooted(base)
    ensures CleanParts(Join([base, sub, leaf])) == CleanParts(base) + [sub, leaf]
  {
    if base == "" {
      JoinThreeFromRoot(sub, leaf);
      assert Split("") == [""] && [""][..0] == [];
    } else {
      JoinThreeFromBase(base, sub, leaf);
    }
  }
}
