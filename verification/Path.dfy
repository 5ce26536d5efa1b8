/** fs_normalize_path of lib/fs/fs.c: what a normalised path is, component by component. */
module Path {

  /** A path so far: is there a leading slash, and which components. */
  datatype Parts = Parts(rooted: bool, stack: seq<string>)

  /** The characters of s up to the next slash. */
  function Field(s: string): (f: string)
    ensures |f| <= |s| && f == s[..|f|] && '/' !in f
    ensures |f| < |s| ==> s[|f|] == '/'
  {
    if s == "" || s[0] == '/' then "" else [s[0]] + Field(s[1..])
  }

  /** One component: "." vanishes, ".." drops the last component or, failing that, the leading slash. */
  function Push(p: Parts, f: string): Parts
  {
    if f == "." then p
    else if f == ".." then
      if p.stack != [] then Parts(p.rooted, p.stack[..|p.stack| - 1]) else Parts(false, [])
    else Parts(p.rooted, p.stack + [f])
  }

  /** The components of s, left to right. */
  function Fold(p: Parts, s: string): Parts
    decreases |s|
  {
    if s == "" then p
    else if s[0] == '/' then Fold(p, s[1..])
    else Fold(Push(p, Field(s)), s[|Field(s)|..])
  }

  function Join(fs: seq<string>): string
  {
    if fs == [] then "" else if |fs| == 1 then fs[0] else fs[0] + "/" + Join(fs[1..])
  }

  function Slash(rooted: bool): string
  {
    if rooted then "/" else ""
  }

  function Render(p: Parts): string
  {
    if p.stack == [] then "" else Slash(p.rooted) + Join(p.stack)
  }

  function Start(s: string): Parts
  {
    Parts(s != "" && s[0] == '/', [])
  }

  function Normal(s: string): string
  {
    Render(Fold(Start(s), s))
  }

  // ---------- normal forms ----------

  /** A component that stays: not empty, no slash, not "." or "..". */
  predicate Proper(f: string)
  {
    f != "" && '/' !in f && f != "." && f != ".."
  }

  ghost predicate AllProper(fs: seq<string>)
  {
    forall i :: 0 <= i < |fs| ==> Proper(fs[i])
  }

  lemma {:induction false} FoldProper(p: Parts, s: string)
    requires AllProper(p.stack)
    ensures AllProper(Fold(p, s).stack)
    decreases |s|
  {
    if s != "" {
      if s[0] == '/' {
        FoldProper(p, s[1..]);
      } else {
        FoldProper(Push(p, Field(s)), s[|Field(s)|..]);
      }
    }
  }

  lemma {:induction false} FieldOf(f: string, rest: string)
    requires '/' !in f && (rest == "" || rest[0] == '/')
    ensures Field(f + rest) == f
  {
    if f == "" {
      assert f + rest == rest;
    } else {
      assert (f + rest)[1..] == f[1..] + rest;
      FieldOf(f[1..], rest);
    }
  }

  /** A whole component at the front of the path is pushed. */
  lemma FoldField(p: Parts, f: string, rest: string)
    requires '/' !in f && f != "" && (rest == "" || rest[0] == '/')
    ensures Fold(p, f + rest) == Fold(Push(p, f), rest)
  {
    FieldOf(f, rest);
    assert (f + rest)[|f|..] == rest;
  }

  lemma FoldMore(p: Parts, f: string, tail: string)
    requires '/' !in f && f != ""
    ensures Fold(p, f + "/" + tail) == Fold(Push(p, f), tail)
  {
    assert f + "/" + tail == f + ("/" + tail);
    FoldField(p, f, "/" + tail);
    assert ("/" + tail)[1..] == tail;
  }

  /** Reading joined proper components back gives those components. */
  lemma {:induction false} FoldJoin(p: Parts, fs: seq<string>)
    requires AllProper(fs)
    ensures Fold(p, Join(fs)) == Parts(p.rooted, p.stack + fs)
    decreases |fs|
  {
    hide Field;
    if fs == [] {
      assert p.stack + fs == p.stack;
    } else if |fs| == 1 {
      FoldField(p, fs[0], "");
      assert fs[0] + "" == fs[0];
      assert p.stack + [fs[0]] == p.stack + fs;
    } else {
      var f := fs[0];
      FoldMore(p, f, Join(fs[1..]));
      FoldJoin(Push(p, f), fs[1..]);
      assert p.stack + [f] + fs[1..] == p.stack + fs;
    }
  }

  /** Normalising twice is normalising once. */
  lemma Idempotent(s: string)
    ensures Normal(Normal(s)) == Normal(s)
  {
    var p := Fold(Start(s), s);
    FoldProper(Start(s), s);
    if p.stack != [] {
      var t := Join(p.stack);
      assert Proper(p.stack[0]);
      assert t != "" && t[0] == p.stack[0][0];
      FoldJoin(Parts(p.rooted, []), p.stack);
      assert [] + p.stack == p.stack;
      if p.rooted {
        assert ("/" + t)[1..] == t;
      } else {
        assert "" + t == t;
      }
    }
  }

  // ---------- dots and slashes ----------

  /** A lone dot makes no difference, wherever it stands. */
  lemma DotVanishes(p: Parts, rest: string)
    requires rest == "" || rest[0] == '/'
    ensures Fold(p, "." + rest) == Fold(p, rest)
  {
    FoldField(p, ".", rest);
  }

  /** Neither does a component with two dots after it. */
  lemma DotDotDrops(p: Parts, f: string, rest: string)
    requires Proper(f) && (rest == "" || rest[0] == '/')
    ensures Fold(p, f + "/.." + rest) == Fold(p, rest)
  {
    var tail := ".." + rest;
    assert f + "/.." + rest == f + "/" + tail;
    FoldMore(p, f, tail);
    FoldField(Push(p, f), "..", rest);
    assert (p.stack + [f])[..|p.stack|] == p.stack;
  }

  /** Two dots with nothing left to drop make the path relative. */
  lemma DotDotOnTop(rooted: bool, rest: string)
    requires rest == "" || rest[0] == '/'
    ensures Fold(Parts(rooted, []), ".." + rest) == Fold(Parts(false, []), rest)
  {
    FoldField(Parts(rooted, []), "..", rest);
  }

  // ---------- no character is invented ----------

  lemma {:induction false} FoldChars(p: Parts, s: string, c: char)
    requires c !in s && forall i :: 0 <= i < |p.stack| ==> c !in p.stack[i]
    ensures forall i :: 0 <= i < |Fold(p, s).stack| ==> c !in Fold(p, s).stack[i]
    decreases |s|
  {
    if s != "" {
      if s[0] == '/' {
        FoldChars(p, s[1..], c);
      } else {
        FoldChars(Push(p, Field(s)), s[|Field(s)|..], c);
      }
    }
  }

  lemma {:induction false} JoinChars(fs: seq<string>, c: char)
    requires c != '/' && forall i :: 0 <= i < |fs| ==> c !in fs[i]
    ensures c !in Join(fs)
  {
    if |fs| > 1 {
      JoinChars(fs[1..], c);
    }
  }

  lemma NormalText(s: string)
    requires '\0' !in s
    ensures '\0' !in Normal(s)
  {
    FoldChars(Start(s), s, '\0');
    JoinChars(Fold(Start(s), s).stack, '\0');
  }
}
