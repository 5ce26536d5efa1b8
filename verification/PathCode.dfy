/** The in-place scanner of fs_normalize_path, proved against Path.Normal. */
module PathCode {
  import opened Path

  datatype Mode = Initial | FieldStart | InField | Sep | SeenSep | Dot | SeenDot | DotDot | SeenDotDot

  /** The C string held in a buffer. */
  function Text(b: string): (s: string)
    ensures '\0' !in s && |s| <= |b| && s == b[..|s|]
    ensures |s| < |b| ==> b[|s|] == '\0'
  {
    if b == "" || b[0] == '\0' then "" else [b[0]] + Text(b[1..])
  }

  lemma {:induction false} TextIs(b: string, n: nat)
    requires n < |b| && b[n] == '\0' && '\0' !in b[..n]
    ensures Text(b) == b[..n]
    decreases n
  {
    if n > 0 {
      assert b[0] == b[..n][0];
      assert b[..n][1..] == b[1..][..n - 1];
      TextIs(b[1..], n - 1);
    }
  }

  /** What has been written once the components of p are out: each followed by its slash. */
  function Emit(p: Parts): string
    decreases |p.stack|
  {
    if p.stack == [] then Slash(p.rooted)
    else Emit(Parts(p.rooted, p.stack[..|p.stack| - 1])) + p.stack[|p.stack| - 1] + "/"
  }

  /** The last character goes if it is a slash. */
  function Trim(out: string): string
  {
    if out != "" && out[|out| - 1] == '/' then out[..|out| - 1] else out
  }

  lemma {:induction false} JoinMore(fs: seq<string>, f: string)
    requires fs != []
    ensures Join(fs + [f]) == Join(fs) + "/" + f
    decreases |fs|
  {
    assert (fs + [f])[1..] == fs[1..] + [f];
    if |fs| > 1 {
      JoinMore(fs[1..], f);
      assert fs[0] + "/" + (Join(fs[1..]) + "/" + f) == fs[0] + "/" + Join(fs[1..]) + "/" + f;
    }
  }

  lemma {:induction false} EmitIs(p: Parts)
    ensures Emit(p) == if p.stack == [] then Slash(p.rooted) else Slash(p.rooted) + Join(p.stack) + "/"
    decreases |p.stack|
  {
    if p.stack != [] {
      var fs, f := p.stack[..|p.stack| - 1], p.stack[|p.stack| - 1];
      assert p.stack == fs + [f];
      EmitIs(Parts(p.rooted, fs));
      if fs == [] {
        assert p.stack == [f];
      } else {
        JoinMore(fs, f);
        Regroup(Slash(p.rooted), Join(fs), "/", f);
      }
    }
  }

  /** The scanner stopped between components. */
  lemma EndsBetween(p: Parts)
    requires AllProper(p.stack)
    ensures Trim(Emit(p)) == Render(p)
  {
    EmitIs(p);
  }

  lemma Regroup(a: string, b: string, c: string, d: string)
    ensures a + (b + c + d) == a + b + c + d
  {
  }

  lemma RenderMore(p: Parts, f: string)
    requires Proper(f)
    ensures Render(Push(p, f)) == Emit(p) + f
  {
    EmitIs(p);
    if p.stack == [] {
      assert p.stack + [f] == [f];
    } else {
      JoinMore(p.stack, f);
      Regroup(Slash(p.rooted), Join(p.stack), "/", f);
    }
  }

  /** The scanner stopped inside a component. */
  lemma EndsInside(p: Parts, f: string)
    requires Proper(f)
    ensures Trim(Emit(p) + f) == Render(Push(p, f))
  {
    RenderMore(p, f);
    assert (Emit(p) + f)[|Emit(p) + f| - 1] == f[|f| - 1];
  }

  // ---------- what each mode of the scanner knows ----------

  function At(s: string, pos: nat): char
  {
    if pos < |s| then s[pos] else '\0'
  }

  /** Everything before `at`, where a component or a slash begins, is accounted for in p. */
  ghost predicate Upto(s: string, at: nat, p: Parts, goal: Parts)
  {
    at <= |s| && AllProper(p.stack) && goal == Fold(p, s[at..])
  }

  /** What mode m knows: the current component starts at `at`, the next character to read is at pos. */
  ghost predicate Knows(m: Mode, s: string, pos: nat, out: string, p: Parts, at: nat)
  {
    match m
    case Initial => pos == 0 && at == 0 && out == "" && p == Start(s)
    case FieldStart => at == pos && At(s, pos) != '/' && out == Emit(p)
    case InField =>
      at <= pos <= |s| && '/' !in s[at..pos] && Proper(Field(s[at..])) && out == Emit(p) + s[at..pos]
    case Sep => at == pos && At(s, pos) == '/' && out + "/" == Emit(p)
    case SeenSep => at == pos && out == Emit(p)
    case Dot => at == pos && At(s, pos) == '.' && out == Emit(p)
    case SeenDot => at + 1 == pos && At(s, at) == '.' && out == Emit(p)
    case DotDot => at + 1 == pos && At(s, at) == '.' && At(s, pos) == '.' && out == Emit(p)
    case SeenDotDot => at + 2 == pos && At(s, at) == '.' && At(s, at + 1) == '.' && out == Emit(p)
  }

  /** Characters read but not yet written in mode m. */
  function Lag(m: Mode): nat
  {
    if m == SeenDot || m == DotDot then 1 else if m == SeenDotDot then 2 else 0
  }

  /** The turns a mode can take without reading on. */
  function Turns(m: Mode): nat
  {
    match m
    case Initial | SeenSep | SeenDot | SeenDotDot => 3
    case FieldStart => 2
    case InField => 1
    case Sep | Dot | DotDot => 0
  }

  lemma SkipSlash(s: string, at: nat, p: Parts, goal: Parts)
    requires Upto(s, at, p, goal) && At(s, at) == '/'
    ensures Upto(s, at + 1, p, goal)
  {
    assert s[at..][1..] == s[at + 1..];
  }

  /** The component starting at `at` ends at pos. */
  lemma FieldEnds(s: string, at: nat, pos: nat)
    requires at <= pos <= |s| && '/' !in s[at..pos] && (pos == |s| || s[pos] == '/')
    ensures Field(s[at..]) == s[at..pos]
  {
    assert s[at..] == s[at..pos] + s[pos..];
    FieldOf(s[at..pos], s[pos..]);
  }

  lemma TakeField(s: string, at: nat, pos: nat, p: Parts, f: string, goal: Parts)
    requires Upto(s, at, p, goal) && at < pos <= |s| && f == s[at..pos] && '/' !in f
    requires pos == |s| || s[pos] == '/'
    requires Proper(f) || f == "." || f == ".."
    ensures Upto(s, pos, Push(p, f), goal)
  {
    assert s[at..] == f + s[pos..];
    FoldField(p, f, s[pos..]);
  }

  lemma AllRead(s: string, p: Parts, goal: Parts)
    requires Upto(s, |s|, p, goal)
    ensures goal == p && Trim(Emit(p)) == Render(goal)
  {
    EndsBetween(p);
  }

  lemma FieldHead(s: string, pos: nat)
    requires pos < |s| && s[pos] != '/'
    ensures Field(s[pos..]) == [s[pos]] + Field(s[pos + 1..])
  {
    assert s[pos..][1..] == s[pos + 1..];
  }

  /** A component that does not start with a dot is proper. */
  lemma PlainField(s: string, at: nat)
    requires at < |s| && s[at] != '/' && s[at] != '.'
    ensures Proper(Field(s[at..]))
  {
    FieldHead(s, at);
  }

  lemma OneDotField(s: string, at: nat)
    requires at + 1 < |s| && s[at] == '.' && s[at + 1] != '/' && s[at + 1] != '.'
    ensures Proper(Field(s[at..]))
  {
    FieldHead(s, at);
    FieldHead(s, at + 1);
    assert Field(s[at..])[1] == s[at + 1];
  }

  lemma TwoDotsField(s: string, at: nat)
    requires at + 2 < |s| && s[at] == '.' && s[at + 1] == '.' && s[at + 2] != '/'
    ensures Proper(Field(s[at..]))
  {
    FieldHead(s, at);
    FieldHead(s, at + 1);
    FieldHead(s, at + 2);
    assert |Field(s[at..])| > 2;
  }

  /** Where the slash before the last component of out ends. */
  ghost predicate Cuts(out: string, k: nat)
  {
    k < |out| && (k > 0 ==> out[k - 1] == '/') && forall i :: k <= i < |out| - 1 ==> out[i] != '/'
  }

  lemma CutsAt(a: string, f: string, k: nat)
    requires '/' !in f && (a != "" ==> a[|a| - 1] == '/') && Cuts(a + f + "/", k)
    ensures k == |a|
  {
    var out := a + f + "/";
    assert a != "" ==> out[|a| - 1] == '/';
    assert forall i :: |a| <= i < |out| - 1 ==> out[i] == f[i - |a|];
  }

  lemma EmitEnds(p: Parts)
    ensures Emit(p) != "" ==> Emit(p)[|Emit(p)| - 1] == '/'
  {
  }

  lemma PopEmit(p: Parts, k: nat)
    requires AllProper(p.stack) && if Emit(p) == "" then k == 0 else Cuts(Emit(p), k)
    ensures Emit(p)[..k] == Emit(Push(p, ".."))
  {
    if p.stack != [] {
      var q, f := Parts(p.rooted, p.stack[..|p.stack| - 1]), p.stack[|p.stack| - 1];
      assert Proper(f);
      EmitEnds(q);
      CutsAt(Emit(q), f, k);
    }
  }

  // ---------- the scanner ----------

  /** The scanner's variables. */
  datatype Scan = Scan(mode: Mode, pos: nat, outpos: nat, done: bool)

  /** The buffer still holds the unread text, its terminator and everything after it. */
  ghost predicate Unread(b: string, was: string, pos: nat)
  {
    |b| == |was| && forall i :: pos <= i < |b| ==> b[i] == was[i]
  }

  /** What holds before a turn; out is what has been written. */
  ghost predicate Going(sc: Scan, s: string, out: string, p: Parts, at: nat, goal: Parts)
  {
    && !sc.done && |out| == sc.outpos && sc.pos <= |s| && sc.outpos + Lag(sc.mode) <= sc.pos
    && Upto(s, at, p, goal) && Knows(sc.mode, s, sc.pos, out, p, at)
  }

  ghost predicate Stopped(sc: Scan, s: string, out: string, goal: Parts)
  {
    sc.done && |out| == sc.outpos <= |s| && sc.pos <= |s| + 1 && Trim(out) == Render(goal)
  }

  ghost predicate Good(sc: Scan, s: string, out: string, p: Parts, at: nat, goal: Parts)
  {
    Going(sc, s, out, p, at, goal) || Stopped(sc, s, out, goal)
  }

  /** Each turn reads on, or moves to a mode with fewer such turns left, or stops. */
  ghost predicate Closer(a: Scan, b: Scan)
  {
    b.done || b.pos > a.pos || (b.pos == a.pos && Turns(b.mode) < Turns(a.mode))
  }

  lemma FromInitial(sc: Scan, s: string, out: string, p: Parts, at: nat, goal: Parts)
    requires Going(sc, s, out, p, at, goal) && sc.mode == Initial
    ensures At(s, sc.pos) == '/' ==> Going(sc.(mode := Sep), s, out, p, at, goal)
    ensures At(s, sc.pos) == '.' ==> Going(sc.(mode := Dot), s, out, p, at, goal)
    ensures At(s, sc.pos) !in ['/', '.'] ==> Going(sc.(mode := FieldStart), s, out, p, at, goal)
  {
  }

  lemma FromFieldStart(sc: Scan, s: string, out: string, p: Parts, at: nat, goal: Parts)
    requires '\0' !in s && Going(sc, s, out, p, at, goal) && sc.mode == FieldStart
    ensures At(s, sc.pos) == '.' ==> Going(sc.(mode := Dot), s, out, p, at, goal)
    ensures At(s, sc.pos) == '\0' ==> Stopped(sc.(done := true), s, out, goal)
    ensures At(s, sc.pos) !in ['\0', '.'] ==> Going(sc.(mode := InField), s, out, p, at, goal)
  {
    if At(s, sc.pos) == '\0' {
      AllRead(s, p, goal);
    } else if At(s, sc.pos) != '.' {
      PlainField(s, at);
      assert s[at..at] == "";
      assert out + "" == out;
    }
  }

  lemma InFieldSlash(sc: Scan, s: string, out: string, p: Parts, at: nat, goal: Parts)
    requires Going(sc, s, out, p, at, goal) && sc.mode == InField && At(s, sc.pos) == '/'
    ensures Going(sc.(mode := Sep), s, out, Push(p, s[at..sc.pos]), sc.pos, goal)
  {
    var f := s[at..sc.pos];
    FieldEnds(s, at, sc.pos);
    TakeField(s, at, sc.pos, p, f, goal);
    assert (p.stack + [f])[..|p.stack|] == p.stack;
  }

  lemma InFieldEnds(sc: Scan, s: string, out: string, p: Parts, at: nat, goal: Parts)
    requires '\0' !in s && Going(sc, s, out, p, at, goal) && sc.mode == InField && At(s, sc.pos) == '\0'
    ensures Stopped(sc.(done := true), s, out, goal)
  {
    var f := s[at..sc.pos];
    FieldEnds(s, at, sc.pos);
    TakeField(s, at, sc.pos, p, f, goal);
    AllRead(s, Push(p, f), goal);
    EndsInside(p, f);
  }

  lemma InFieldMore(sc: Scan, s: string, out: string, p: Parts, at: nat, goal: Parts, c: char)
    requires Going(sc, s, out, p, at, goal) && sc.mode == InField && c == At(s, sc.pos) && c != '/' && sc.pos < |s|
    ensures Going(sc.(pos := sc.pos + 1, outpos := sc.outpos + 1), s, out + [c], p, at, goal)
  {
    assert s[at..sc.pos + 1] == s[at..sc.pos] + [c];
    assert Emit(p) + (s[at..sc.pos] + [c]) == out + [c];
  }

  lemma FromSep(sc: Scan, s: string, out: string, p: Parts, at: nat, goal: Parts)
    requires Going(sc, s, out, p, at, goal) && sc.mode == Sep
    ensures Going(Scan(SeenSep, sc.pos + 1, sc.outpos + 1, false), s, out + "/", p, at + 1, goal)
  {
    SkipSlash(s, at, p, goal);
  }

  lemma FromSeenSep(sc: Scan, s: string, out: string, p: Parts, at: nat, goal: Parts)
    requires '\0' !in s && Going(sc, s, out, p, at, goal) && sc.mode == SeenSep
    ensures At(s, sc.pos) == '/' ==> Going(sc.(pos := sc.pos + 1), s, out, p, at + 1, goal)
    ensures At(s, sc.pos) == '\0' ==> Stopped(sc.(done := true), s, out, goal)
    ensures At(s, sc.pos) !in ['\0', '/'] ==> Going(sc.(mode := FieldStart), s, out, p, at, goal)
  {
    if At(s, sc.pos) == '/' {
      SkipSlash(s, at, p, goal);
    } else if At(s, sc.pos) == '\0' {
      AllRead(s, p, goal);
    }
  }

  lemma FromDot(sc: Scan, s: string, out: string, p: Parts, at: nat, goal: Parts)
    requires Going(sc, s, out, p, at, goal) && (sc.mode == Dot || sc.mode == DotDot)
    ensures Going(sc.(pos := sc.pos + 1, mode := if sc.mode == Dot then SeenDot else SeenDotDot), s, out, p, at, goal)
  {
  }

  /** A lone dot leaves the components as they are. */
  lemma LoneDot(sc: Scan, s: string, out: string, p: Parts, at: nat, goal: Parts)
    requires '\0' !in s && Going(sc, s, out, p, at, goal) && sc.mode == SeenDot
    ensures At(s, sc.pos) == '/' ==> Going(sc.(pos := sc.pos + 1, mode := SeenSep), s, out, p, sc.pos + 1, goal)
    ensures At(s, sc.pos) == '\0' ==> Stopped(sc.(done := true), s, out, goal)
  {
    hide Fold, Field, Emit, Render;
    if At(s, sc.pos) == '/' || At(s, sc.pos) == '\0' {
      TakeField(s, at, sc.pos, p, ".", goal);
      if At(s, sc.pos) == '/' {
        SkipSlash(s, sc.pos, p, goal);
      } else {
        AllRead(s, p, goal);
      }
    }
  }

  lemma FromSeenDot(sc: Scan, s: string, out: string, p: Parts, at: nat, goal: Parts)
    requires '\0' !in s && Going(sc, s, out, p, at, goal) && sc.mode == SeenDot
    ensures At(s, sc.pos) == '.' ==> Going(sc.(mode := DotDot), s, out, p, at, goal)
    ensures At(s, sc.pos) !in ['.', '/', '\0'] ==>
              Going(sc.(outpos := sc.outpos + 1, mode := InField), s, out + ".", p, at, goal)
  {
    if At(s, sc.pos) !in ['.', '/', '\0'] {
      OneDotField(s, at);
      assert s[at..sc.pos] == ".";
    }
  }

  lemma PopField(sc: Scan, s: string, out: string, p: Parts, at: nat, goal: Parts, k: nat)
    requires '\0' !in s && Going(sc, s, out, p, at, goal) && sc.mode == SeenDotDot
    requires if out == "" then k == 0 else Cuts(out, k)
    ensures At(s, sc.pos) == '/' ==>
              Going(Scan(SeenSep, sc.pos + 1, k, false), s, out[..k], Push(p, ".."), sc.pos + 1, goal)
    ensures At(s, sc.pos) == '\0' ==> Stopped(Scan(SeenSep, sc.pos + 1, k, true), s, out[..k], goal)
  {
    hide Fold, Field, Emit, Push, Render;
    if At(s, sc.pos) == '/' || At(s, sc.pos) == '\0' {
      TakeField(s, at, sc.pos, p, "..", goal);
      PopEmit(p, k);
      if At(s, sc.pos) == '/' {
        SkipSlash(s, sc.pos, Push(p, ".."), goal);
      } else {
        AllRead(s, Push(p, ".."), goal);
      }
    }
  }

  lemma FromSeenDotDot(sc: Scan, s: string, out: string, p: Parts, at: nat, goal: Parts)
    requires Going(sc, s, out, p, at, goal) && sc.mode == SeenDotDot && sc.pos < |s| && s[sc.pos] != '/'
    ensures Going(sc.(outpos := sc.outpos + 2, mode := InField), s, out + "." + ".", p, at, goal)
  {
    TwoDotsField(s, at);
    assert s[at..sc.pos] == "..";
    assert out + "." + "." == out + "..";
  }

  method BackUp(path: array<char>, outpos: nat) returns (k: nat)
    requires outpos <= path.Length
    ensures outpos == 0 ==> k == 0
    ensures outpos > 0 ==> Cuts(path[..outpos], k)
  {
    k := outpos;
    if k > 0 {
      k := k - 1;
      while k > 0
        invariant 0 <= k < outpos
        invariant forall i :: k <= i < outpos - 1 ==> path[i] != '/'
      {
        if path[k - 1] == '/' {
          break;
        }
        k := k - 1;
      }
    }
  }

  /** Every write lands before pos, the next character to be read. */
  method Put(path: array<char>, outpos: nat, c: char, ghost was: string, ghost pos: nat) returns (next: nat)
    requires outpos < pos && outpos < path.Length && Unread(path[..], was, pos)
    modifies path
    ensures next == outpos + 1 && path[..next] == old(path[..outpos]) + [c]
    ensures Unread(path[..], was, pos)
  {
    path[outpos] := c;
    next := outpos + 1;
  }

  /** A turn inside a component. */
  method InFieldTurn(path: array<char>, sc: Scan, ghost s: string, ghost was: string, ghost p: Parts, ghost at: nat,
                     ghost goal: Parts)
    returns (r: Scan, ghost q: Parts, ghost from: nat)
    requires sc.mode == InField && sc.outpos <= sc.pos < path.Length && '\0' !in s
    requires Going(sc, s, path[..sc.outpos], p, at, goal)
    requires path[sc.pos] == At(s, sc.pos) && Unread(path[..], was, sc.pos)
    modifies path
    ensures r.outpos <= path.Length && Good(r, s, path[..r.outpos], q, from, goal)
    ensures Unread(path[..], was, r.pos) && Closer(sc, r)
  {
    var c := path[sc.pos];
    q, from := p, at;
    if c == '/' {
      InFieldSlash(sc, s, path[..sc.outpos], p, at, goal);
      r, q, from := sc.(mode := Sep), Push(p, s[at..sc.pos]), sc.pos;
    } else if c == '\0' {
      InFieldEnds(sc, s, path[..sc.outpos], p, at, goal);
      r := sc.(done := true);
    } else {
      InFieldMore(sc, s, path[..sc.outpos], p, at, goal, c);
      var n := Put(path, sc.outpos, c, was, sc.pos + 1);
      r := sc.(pos := sc.pos + 1, outpos := n);
    }
  }

  /** A turn after one dot. */
  method SeenDotTurn(path: array<char>, sc: Scan, ghost s: string, ghost was: string, ghost p: Parts, ghost at: nat,
                     ghost goal: Parts)
    returns (r: Scan, ghost from: nat)
    requires sc.mode == SeenDot && sc.outpos < sc.pos < path.Length && '\0' !in s
    requires Going(sc, s, path[..sc.outpos], p, at, goal)
    requires path[sc.pos] == At(s, sc.pos) && Unread(path[..], was, sc.pos)
    modifies path
    ensures r.outpos <= path.Length && Good(r, s, path[..r.outpos], p, from, goal)
    ensures Unread(path[..], was, r.pos) && Closer(sc, r)
  {
    var c := path[sc.pos];
    from := at;
    LoneDot(sc, s, path[..sc.outpos], p, at, goal);
    FromSeenDot(sc, s, path[..sc.outpos], p, at, goal);
    if c == '.' {
      r := sc.(mode := DotDot);
    } else if c == '/' {
      r, from := sc.(pos := sc.pos + 1, mode := SeenSep), sc.pos + 1;
    } else if c == '\0' {
      r := sc.(done := true);
    } else {
      var n := Put(path, sc.outpos, '.', was, sc.pos);
      r := sc.(outpos := n, mode := InField);
    }
  }

  /** A turn after two dots. */
  method SeenDotDotTurn(path: array<char>, sc: Scan, ghost s: string, ghost was: string, ghost p: Parts,
                        ghost at: nat, ghost goal: Parts)
    returns (r: Scan, ghost q: Parts, ghost from: nat)
    requires sc.mode == SeenDotDot && sc.outpos + 2 <= sc.pos < path.Length && '\0' !in s
    requires Going(sc, s, path[..sc.outpos], p, at, goal)
    requires path[sc.pos] == At(s, sc.pos) && Unread(path[..], was, sc.pos)
    modifies path
    ensures r.outpos <= path.Length && Good(r, s, path[..r.outpos], q, from, goal)
    ensures Unread(path[..], was, r.pos) && Closer(sc, r)
  {
    hide Going, Stopped;
    var c := path[sc.pos];
    if c == '/' || c == '\0' {
      var k := BackUp(path, sc.outpos);
      PopField(sc, s, path[..sc.outpos], p, at, goal, k);
      assert path[..sc.outpos][..k] == path[..k];
      r, q, from := Scan(SeenSep, sc.pos + 1, k, c == '\0'), Push(p, ".."), sc.pos + 1;
    } else {
      FromSeenDotDot(sc, s, path[..sc.outpos], p, at, goal);
      var n := Put(path, sc.outpos, '.', was, sc.pos);
      n := Put(path, n, '.', was, sc.pos);
      r, q, from := sc.(outpos := n, mode := InField), p, at;
    }
  }

  /** A turn that writes nothing. */
  method QuietTurn(c: char, sc: Scan, ghost s: string, ghost out: string, ghost p: Parts, ghost at: nat,
                   ghost goal: Parts)
    returns (r: Scan, ghost from: nat)
    requires sc.mode !in {InField, SeenDot, SeenDotDot, Sep} && '\0' !in s
    requires Going(sc, s, out, p, at, goal) && c == At(s, sc.pos)
    ensures r.outpos == sc.outpos && r.pos >= sc.pos && Good(r, s, out, p, from, goal) && Closer(sc, r)
  {
    from := at;
    match sc.mode {
      case Initial =>
        FromInitial(sc, s, out, p, at, goal);
        r := sc.(mode := if c == '/' then Sep else if c == '.' then Dot else FieldStart);
      case FieldStart =>
        FromFieldStart(sc, s, out, p, at, goal);
        r := if c == '.' then sc.(mode := Dot) else if c == '\0' then sc.(done := true) else sc.(mode := InField);
      case SeenSep =>
        FromSeenSep(sc, s, out, p, at, goal);
        if c == '/' {
          r, from := sc.(pos := sc.pos + 1), at + 1;
        } else {
          r := if c == '\0' then sc.(done := true) else sc.(mode := FieldStart);
        }
      case Dot =>
        FromDot(sc, s, out, p, at, goal);
        r := sc.(pos := sc.pos + 1, mode := SeenDot);
      case DotDot =>
        FromDot(sc, s, out, p, at, goal);
        r := sc.(pos := sc.pos + 1, mode := SeenDotDot);
    }
  }

  /** One turn of the loop. */
  method Turn(path: array<char>, sc: Scan, ghost s: string, ghost was: string, ghost p: Parts, ghost at: nat,
              ghost goal: Parts)
    returns (r: Scan, ghost q: Parts, ghost from: nat)
    requires sc.outpos <= path.Length && |s| < path.Length && '\0' !in s
    requires Going(sc, s, path[..sc.outpos], p, at, goal)
    requires path[sc.pos] == At(s, sc.pos) && Unread(path[..], was, sc.pos)
    modifies path
    ensures r.outpos <= path.Length && Good(r, s, path[..r.outpos], q, from, goal)
    ensures Unread(path[..], was, r.pos) && Closer(sc, r)
  {
    q := p;
    match sc.mode {
      case InField => r, q, from := InFieldTurn(path, sc, s, was, p, at, goal);
      case SeenDot => r, from := SeenDotTurn(path, sc, s, was, p, at, goal);
      case SeenDotDot => r, q, from := SeenDotDotTurn(path, sc, s, was, p, at, goal);
      case Sep =>
        FromSep(sc, s, path[..sc.outpos], p, at, goal);
        var n := Put(path, sc.outpos, '/', was, sc.pos + 1);
        r, from := Scan(SeenSep, sc.pos + 1, n, false), at + 1;
      case _ => r, from := QuietTurn(path[sc.pos], sc, s, path[..sc.outpos], p, at, goal);
    }
  }

  /** The tail of the function: drop a trailing slash and terminate. */
  method Finish(path: array<char>, n: nat, ghost s: string)
    requires n <= |s| < path.Length && '\0' !in s && Trim(path[..n]) == Normal(s)
    modifies path
    ensures '\0' in path[..] && Text(path[..]) == Normal(s)
    ensures forall i :: |s| < i < path.Length ==> path[i] == old(path[i])
  {
    var outpos := n;
    if outpos > 0 && path[outpos - 1] == '/' {
      outpos := outpos - 1;
    }
    assert path[..outpos] == Normal(s);
    NormalText(s);
    path[outpos] := '\0';
    assert path[..outpos] == Normal(s);
    TextIs(path[..], outpos);
  }

  lemma Begin(s: string)
    ensures Going(Scan(Initial, 0, 0, false), s, "", Start(s), 0, Fold(Start(s), s))
  {
    assert s[0..] == s;
  }

  lemma Reads(b: string, was: string, pos: nat)
    requires Unread(b, was, pos) && pos <= |Text(was)| < |was|
    ensures b[pos] == At(Text(was), pos)
  {
  }

  method Normalize(path: array<char>)
    requires '\0' in path[..]
    modifies path
    ensures '\0' in path[..] && Text(path[..]) == Normal(old(Text(path[..])))
    ensures forall i :: |old(Text(path[..]))| < i < path.Length ==> path[i] == old(path[i])
  {
    hide Fold, Emit, Push, Render, Trim, Text;
    ghost var was := path[..];
    ghost var s := Text(was);
    ghost var goal := Fold(Start(s), s);
    var sc := Scan(Initial, 0, 0, false);
    ghost var p, at := Start(s), 0;
    Begin(s);
    assert path[..0] == "";
    while !sc.done
      invariant |s| < path.Length && sc.outpos <= path.Length
      invariant Unread(path[..], was, sc.pos)
      invariant Good(sc, s, path[..sc.outpos], p, at, goal)
      decreases !sc.done, |s| - sc.pos, Turns(sc.mode)
    {
      Reads(path[..], was, sc.pos);
      sc, p, at := Turn(path, sc, s, was, p, at, goal);
    }
    assert forall i :: |s| < i < path.Length ==> path[i] == path[..][i] == was[i];
    Finish(path, sc.outpos, s);
  }
}
