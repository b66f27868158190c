/** The incremental frame decoder (Framer.cs): what it returns for a stream that arrives in pieces. */
module Framer {
  import opened Basics

  /** The three special characters, and the numeric value the platform assigns to a character. */
  datatype Config = Config(sof: char, eof: char, esc: char, numeric: char -> int)

  predicate Trapped(cfg: Config, c: char) {
    cfg.numeric(c) > 0x7f
  }

  ghost predicate NoTraps(cfg: Config, s: string) {
    forall k :: 0 <= k < |s| ==> !Trapped(cfg, s[k])
  }

  // ------------------------------------------------------- what a stream's frames are

  /** Where the decoder is in the stream, what it kept of the frame from earlier pieces and what it
      has of this piece. */
  datatype Scanner = Scanner(inFrame: bool, escaping: bool, kept: string, local: string)

  const START: Scanner := Scanner(false, false, "", "")

  /** The scanner after one more character, and the frame that it completes. */
  function Scan(cfg: Config, st: Scanner, c: char): (Scanner, Option<string>) {
    if !st.inFrame then (if c == cfg.sof then st.(inFrame := true, local := "") else st, None)
    else if Trapped(cfg, c) then (st.(inFrame := false), None)
    else if st.escaping then (st.(escaping := false, local := st.local + [c]), None)
    else if c == cfg.eof then (START, Some(st.kept + st.local))
    else if c == cfg.esc then (st.(escaping := true), None)
    else (st.(local := st.local + [c]), None)
  }

  /** The end of a piece. */
  function Pause(st: Scanner): Scanner {
    st.(kept := st.kept + st.local, local := "")
  }

  function Frames(cfg: Config, st: Scanner, s: string): seq<string>
    decreases |s|
  {
    if s == "" then [] else Completed(Scan(cfg, st, s[0]).1) + Frames(cfg, Scan(cfg, st, s[0]).0, s[1..])
  }

  function Completed(frame: Option<string>): seq<string> {
    if frame == None then [] else [frame.value]
  }

  function After(cfg: Config, st: Scanner, s: string): Scanner
    decreases |s|
  {
    if s == "" then st else After(cfg, Scan(cfg, st, s[0]).0, s[1..])
  }

  /** The frames of a stream that arrives in pieces. */
  function FramesOf(cfg: Config, st: Scanner, pieces: seq<string>): seq<string>
    decreases |pieces|
  {
    if pieces == [] then []
    else Frames(cfg, st, pieces[0]) + FramesOf(cfg, Pause(After(cfg, st, pieces[0])), pieces[1..])
  }

  function Concat(pieces: seq<string>): string {
    if pieces == [] then "" else pieces[0] + Concat(pieces[1..])
  }

  lemma {:induction false} FramesAppend(cfg: Config, st: Scanner, a: string, b: string)
    ensures Frames(cfg, st, a + b) == Frames(cfg, st, a) + Frames(cfg, After(cfg, st, a), b)
    ensures After(cfg, st, a + b) == After(cfg, After(cfg, st, a), b)
    decreases |a|
  {
    hide Scan;
    if a == "" {
      assert a + b == b;
    } else {
      assert (a + b)[1..] == a[1..] + b;
      FramesAppend(cfg, Scan(cfg, st, a[0]).0, a[1..], b);
    }
  }

  // --------------------------------------------------------------- what Deframe does

  /** The decoder's fields. */
  datatype State = State(sof: bool, escaping: bool, remaining: string, current: string)

  const INITIAL: State := State(false, false, "", "")

  datatype Parsed = Parsed(found: bool, sof: bool, escaping: bool, content: string, rest: string)

  /** The loop over the characters, up to the end of a frame. */
  function Parse(cfg: Config, sof: bool, escaping: bool, content: string, s: string): (p: Parsed)
    ensures |p.rest| <= |s| && (p.found ==> |p.rest| < |s|) && (!p.found ==> p.rest == "")
    decreases |s|
  {
    if s == "" then Parsed(false, sof, escaping, content, "")
    else
      var c, t := s[0], s[1..];
      if !sof then
        if c == cfg.sof then Parse(cfg, true, escaping, "", t) else Parse(cfg, false, escaping, content, t)
      else if Trapped(cfg, c) then Parse(cfg, false, escaping, content, t)
      else if escaping then Parse(cfg, true, false, content + [c], t)
      else if c == cfg.eof then Parsed(true, false, false, content, t)
      else if c == cfg.esc then Parse(cfg, true, true, content, t)
      else Parse(cfg, true, false, content + [c], t)
  }

  function Deframed(cfg: Config, st: State, data: string): (State, Option<string>) {
    var p := Parse(cfg, st.sof, st.escaping, "", st.remaining + data);
    if p.found then (State(p.sof, p.escaping, p.rest, ""), Some(st.current + p.content))
    else (State(p.sof, p.escaping, p.rest, st.current + p.content), None)
  }

  class Framer {
    const cfg: Config
    var sof: bool
    var escaping: bool
    var remaining: string
    var current: string

    ghost function Value(): State
      reads this
    {
      State(sof, escaping, remaining, current)
    }

    constructor (cfg: Config)
      ensures this.cfg == cfg && Value() == INITIAL
    {
      this.cfg := cfg;
      sof, escaping, remaining, current := false, false, "", "";
    }

    method Deframe(data: string) returns (frame: Option<string>)
      modifies this
      ensures (Value(), frame) == Deframed(cfg, old(Value()), data)
    {
      var content := "";
      remaining := remaining + data;
      var parsed := 0;
      ghost var all, was := remaining, current;
      while parsed < |remaining|
        invariant parsed <= |remaining| && remaining == all && current == was
        invariant Parse(cfg, sof, escaping, content, all[parsed..]) == Parse(cfg, old(sof), old(escaping), "", all)
        decreases |remaining| - parsed
      {
        var c := remaining[parsed];
        ghost var tail := all[parsed..];
        assert tail[0] == c && tail[1..] == all[parsed + 1..];
        parsed := parsed + 1;
        if !sof {
          if c == cfg.sof {
            sof := true;
            content := "";
          }
        } else if cfg.numeric(c) > 0x7f {
          sof := false;
        } else if !escaping {
          if c == cfg.eof {
            sof := false;
            remaining := remaining[parsed..];
            content := current + content;
            current := "";
            return Some(content);
          }
          if c != cfg.esc {
            content := content + [c];
          } else {
            escaping := true;
          }
        } else {
          content := content + [c];
          escaping := false;
        }
      }
      remaining := remaining[parsed..];
      current := current + content;
      return None;
    }
  }

  // -------------------------------------------------- calling it until there is no frame

  /** A piece of the stream is handed over and frames are asked for until there is none. */
  function Received(cfg: Config, st: State, data: string): (State, seq<string>)
    decreases |st.remaining + data|
  {
    var (st', frame) := Deframed(cfg, st, data);
    if frame == None then (st', [])
    else
      assert |st'.remaining + ""| < |st.remaining + data|;
      var (st'', frames) := Received(cfg, st', "");
      (st'', [frame.value] + frames)
  }

  function ReceivedAll(cfg: Config, st: State, pieces: seq<string>): seq<string>
    decreases |pieces|
  {
    if pieces == [] then []
    else
      var (st', frames) := Received(cfg, st, pieces[0]);
      frames + ReceivedAll(cfg, st', pieces[1..])
  }

  function View(st: State): Scanner {
    Scanner(st.sof, st.escaping, st.current, "")
  }

  /** The loop is the scanner, up to the first frame. */
  lemma {:induction false} ParseScans(cfg: Config, st: Scanner, s: string)
    ensures var p := Parse(cfg, st.inFrame, st.escaping, st.local, s);
      && (p.found ==>
           && Frames(cfg, st, s) == [st.kept + p.content] + Frames(cfg, START, p.rest)
           && After(cfg, st, s) == After(cfg, START, p.rest) && !p.sof && !p.escaping)
      && (!p.found ==> Frames(cfg, st, s) == [] && After(cfg, st, s) == Scanner(p.sof, p.escaping, st.kept, p.content))
    decreases |s|
  {
    if s != "" {
      var st' := Scan(cfg, st, s[0]).0;
      if Scan(cfg, st, s[0]).1 == None { ParseScans(cfg, st', s[1..]); }
    }
  }

  lemma {:induction false} ReceivedScans(cfg: Config, st: State, data: string)
    ensures Received(cfg, st, data).1 == Frames(cfg, View(st), st.remaining + data)
    ensures View(Received(cfg, st, data).0) == Pause(After(cfg, View(st), st.remaining + data))
    ensures Received(cfg, st, data).0.remaining == ""
    decreases |st.remaining + data|
  {
    hide Parse, Frames, After;
    ParseScans(cfg, View(st), st.remaining + data);
    var p := Parse(cfg, st.sof, st.escaping, "", st.remaining + data);
    if p.found {
      var st' := Deframed(cfg, st, data).0;
      assert st'.remaining + "" == p.rest;
      ReceivedScans(cfg, st', "");
    }
  }

  /** The decoder returns the stream's frames, as the scanner sees them. */
  lemma {:induction false} ReceivedAllScans(cfg: Config, st: State, pieces: seq<string>)
    requires st.remaining == ""
    ensures ReceivedAll(cfg, st, pieces) == FramesOf(cfg, View(st), pieces)
    decreases |pieces|
  {
    hide Received, Frames, After;
    if pieces != [] {
      assert "" + pieces[0] == pieces[0];
      ReceivedScans(cfg, st, pieces[0]);
      ReceivedAllScans(cfg, Received(cfg, st, pieces[0]).0, pieces[1..]);
    }
  }

  // ------------------------------------------------------- when the pieces do not matter

  /** A frame was given up that had already some content. */
  ghost predicate Stale(st: Scanner) {
    !st.inFrame && st.kept + st.local != ""
  }

  /** After such a frame, another one is completed. */
  ghost predicate Spoiled(cfg: Config, st: Scanner, s: string) {
    exists t :: 0 <= t <= |s| && Stale(After(cfg, st, s[..t])) && Frames(cfg, After(cfg, st, s[..t]), s[t..]) != []
  }

  /** Two scanners that differ at most in where they have the content of the frame they are in. */
  ghost predicate Alike(a: Scanner, b: Scanner) {
    a.inFrame == b.inFrame && a.escaping == b.escaping && a.kept + a.local == b.kept + b.local
  }

  ghost predicate SamePlace(a: Scanner, b: Scanner) {
    a.inFrame == b.inFrame && a.escaping == b.escaping
  }

  /** Whether frames are completed does not depend on any content. */
  lemma {:induction false} SameNumber(cfg: Config, a: Scanner, b: Scanner, s: string)
    requires SamePlace(a, b)
    ensures |Frames(cfg, a, s)| == |Frames(cfg, b, s)| && SamePlace(After(cfg, a, s), After(cfg, b, s))
    decreases |s|
  {
    if s != "" {
      SameNumber(cfg, Scan(cfg, a, s[0]).0, Scan(cfg, b, s[0]).0, s[1..]);
    }
  }

  lemma SpoiledLater(cfg: Config, st: Scanner, s: string)
    requires s != "" && Spoiled(cfg, Scan(cfg, st, s[0]).0, s[1..])
    ensures Spoiled(cfg, st, s)
  {
    hide Scan, Frames;
    var st', r := Scan(cfg, st, s[0]).0, s[1..];
    var t :| 0 <= t <= |r| && Stale(After(cfg, st', r[..t])) && Frames(cfg, After(cfg, st', r[..t]), r[t..]) != [];
    assert s[..t + 1][1..] == r[..t] && s[t + 1..] == r[t..];
    assert After(cfg, st, s[..t + 1]) == After(cfg, st', r[..t]);
  }

  lemma SpoiledNow(cfg: Config, st: Scanner, s: string)
    requires Stale(st) && Frames(cfg, st, s) != []
    ensures Spoiled(cfg, st, s)
  {
    hide Scan, Frames;
    var t := 0;
    assert s[..t] == "" && s[t..] == s;
    assert Stale(After(cfg, st, s[..t]));
  }

  /** Alike, or no frame is completed any more. */
  ghost predicate Related(cfg: Config, a: Scanner, b: Scanner, s: string) {
    Alike(a, b) || (SamePlace(a, b) && Frames(cfg, b, s) == [])
  }

  lemma RelatedStep(cfg: Config, a: Scanner, b: Scanner, s: string)
    requires s != "" && Related(cfg, a, b, s) && !Spoiled(cfg, b, s)
    ensures Completed(Scan(cfg, a, s[0]).1) == Completed(Scan(cfg, b, s[0]).1)
    ensures Related(cfg, Scan(cfg, a, s[0]).0, Scan(cfg, b, s[0]).0, s[1..])
    ensures !Spoiled(cfg, Scan(cfg, b, s[0]).0, s[1..])
  {
    hide Spoiled;
    var b' := Scan(cfg, b, s[0]).0;
    if Spoiled(cfg, b', s[1..]) { SpoiledLater(cfg, b, s); }
    assert Frames(cfg, b, s) == [] ==> Frames(cfg, b', s[1..]) == [] && Scan(cfg, b, s[0]).1 == None;
    if Stale(b) && Frames(cfg, b, s) != [] { SpoiledNow(cfg, b, s); }
    hide Frames, Trapped;
    if Alike(a, b) { AlikeStep(cfg, a, b, s[0]); }
  }

  lemma AlikeStep(cfg: Config, a: Scanner, b: Scanner, c: char)
    requires Alike(a, b)
    ensures Completed(Scan(cfg, a, c).1) == Completed(Scan(cfg, b, c).1)
    ensures SamePlace(Scan(cfg, a, c).0, Scan(cfg, b, c).0)
    ensures !Stale(b) ==> Alike(Scan(cfg, a, c).0, Scan(cfg, b, c).0)
  {
    hide Trapped;
    assert a.kept + (a.local + [c]) == (a.kept + a.local) + [c];
    assert b.kept + (b.local + [c]) == (b.kept + b.local) + [c];
    if !b.inFrame && b.kept + b.local == "" {
      assert |b.kept| + |b.local| == |b.kept + b.local| == 0;
      assert |a.kept| + |a.local| == |a.kept + a.local| == 0;
    }
  }

  lemma {:induction false} RelatedAlong(cfg: Config, a: Scanner, b: Scanner, s: string, rest: string)
    requires Related(cfg, a, b, s + rest) && !Spoiled(cfg, b, s + rest)
    ensures Frames(cfg, a, s) == Frames(cfg, b, s)
    ensures Related(cfg, After(cfg, a, s), After(cfg, b, s), rest) && !Spoiled(cfg, After(cfg, b, s), rest)
    decreases |s|
  {
    hide Scan, Spoiled, Related;
    if s == "" {
      assert s + rest == rest;
    } else {
      RelatedStep(cfg, a, b, s + rest);
      assert (s + rest)[1..] == s[1..] + rest && (s + rest)[0] == s[0];
      RelatedAlong(cfg, Scan(cfg, a, s[0]).0, Scan(cfg, b, s[0]).0, s[1..], rest);
    }
  }

  lemma {:induction false} RelatedPieces(cfg: Config, a: Scanner, b: Scanner, pieces: seq<string>)
    requires Related(cfg, a, b, Concat(pieces)) && !Spoiled(cfg, b, Concat(pieces))
    ensures FramesOf(cfg, a, pieces) == Frames(cfg, b, Concat(pieces))
    decreases |pieces|
  {
    hide Scan, Spoiled, Related;
    if pieces != [] {
      var s, rest := pieces[0], Concat(pieces[1..]);
      RelatedAlong(cfg, a, b, s, rest);
      FramesAppend(cfg, b, s, rest);
      PauseRelated(cfg, After(cfg, a, s), After(cfg, b, s), rest);
      RelatedPieces(cfg, Pause(After(cfg, a, s)), After(cfg, b, s), pieces[1..]);
    }
  }

  lemma PauseRelated(cfg: Config, a: Scanner, b: Scanner, s: string)
    requires Related(cfg, a, b, s)
    ensures Related(cfg, Pause(a), b, s)
  {
    assert (a.kept + a.local) + "" == a.kept + a.local;
  }

  /** Unless a frame is completed after one that was given up half way, the frames do not depend on
      how the stream is cut into pieces. */
  lemma PiecesDoNotMatter(cfg: Config, pieces: seq<string>)
    requires !Spoiled(cfg, START, Concat(pieces))
    ensures ReceivedAll(cfg, INITIAL, pieces) == Frames(cfg, START, Concat(pieces))
  {
    hide Spoiled, Frames, FramesOf, ReceivedAll;
    ReceivedAllScans(cfg, INITIAL, pieces);
    RelatedPieces(cfg, START, START, pieces);
  }

  // -------------------------------------------------------------- when the pieces matter

  lemma {:induction false} NothingKept(cfg: Config, st: Scanner, s: string)
    requires st.kept == ""
    ensures After(cfg, st, s).kept == ""
    decreases |s|
  {
    if s != "" { NothingKept(cfg, Scan(cfg, st, s[0]).0, s[1..]); }
  }

  /** What one scanner has kept from before shows in the next frame. */
  lemma {:induction false} KeptShows(cfg: Config, a: Scanner, b: Scanner, s: string)
    requires SamePlace(a, b) && (a.inFrame ==> a.local == b.local) && b.kept == "" && a.kept != ""
    requires Frames(cfg, b, s) != []
    ensures Frames(cfg, a, s) != Frames(cfg, b, s)
    decreases |s|
  {
    var a', b' := Scan(cfg, a, s[0]), Scan(cfg, b, s[0]);
    if b'.1 == None {
      KeptShows(cfg, a'.0, b'.0, s[1..]);
      assert Frames(cfg, a, s) == [] + Frames(cfg, a'.0, s[1..]) == Frames(cfg, a'.0, s[1..]);
      assert Frames(cfg, b, s) == [] + Frames(cfg, b'.0, s[1..]) == Frames(cfg, b'.0, s[1..]);
    } else {
      assert |a.kept + a.local| > |b.kept + b.local|;
      assert Frames(cfg, a, s)[0] == a.kept + a.local && Frames(cfg, b, s)[0] == b.kept + b.local;
    }
  }

  lemma OnePiece(cfg: Config, s: string)
    ensures ReceivedAll(cfg, INITIAL, [s]) == Frames(cfg, START, s)
  {
    hide Frames, After;
    ReceivedAllScans(cfg, INITIAL, [s]);
    assert [s][1..] == [];
  }

  lemma TwoPieces(cfg: Config, a: string, b: string)
    ensures ReceivedAll(cfg, INITIAL, [a, b]) == Frames(cfg, START, a) + Frames(cfg, Pause(After(cfg, START, a)), b)
  {
    hide Frames, After;
    ReceivedAllScans(cfg, INITIAL, [a, b]);
    var st := Pause(After(cfg, START, a));
    assert [a, b][1..] == [b] && [b][1..] == [];
    assert FramesOf(cfg, st, [b]) == Frames(cfg, st, b) + [] == Frames(cfg, st, b);
  }

  /** If the stream is spoiled, some way of cutting it in two changes its frames. */
  lemma PiecesMatter(cfg: Config, s: string) returns (t: nat)
    requires Spoiled(cfg, START, s)
    ensures t <= |s| && ReceivedAll(cfg, INITIAL, [s[..t], s[t..]]) != ReceivedAll(cfg, INITIAL, [s])
  {
    hide Frames, After;
    t :| 0 <= t <= |s| && Stale(After(cfg, START, s[..t])) && Frames(cfg, After(cfg, START, s[..t]), s[t..]) != [];
    var st := After(cfg, START, s[..t]);
    NothingKept(cfg, START, s[..t]);
    KeptShows(cfg, Pause(st), st, s[t..]);
    assert s == s[..t] + s[t..];
    FramesAppend(cfg, START, s[..t], s[t..]);
    OnePiece(cfg, s);
    TwoPieces(cfg, s[..t], s[t..]);
    DifferentEnds(Frames(cfg, START, s[..t]), Frames(cfg, st, s[t..]), Frames(cfg, Pause(st), s[t..]));
  }

  lemma DifferentEnds(p: seq<string>, a: seq<string>, b: seq<string>)
    requires a != b
    ensures p + a != p + b
  {
    assert (p + a)[|p|..] == a && (p + b)[|p|..] == b;
  }

  /** Exactly the streams in which no frame is completed after one that was given up half way give
      the same frames in whatever pieces they arrive. */
  lemma PiecesMatterIff(cfg: Config, s: string)
    ensures !Spoiled(cfg, START, s) <==> forall pieces :: Concat(pieces) == s ==>
      ReceivedAll(cfg, INITIAL, pieces) == ReceivedAll(cfg, INITIAL, [s])
  {
    hide Spoiled, ReceivedAll, Frames;
    OnePiece(cfg, s);
    if Spoiled(cfg, START, s) {
      var t := PiecesMatter(cfg, s);
      assert [s[..t], s[t..]][1..] == [s[t..]] && [s[t..]][1..] == [];
      assert Concat([s[t..]]) == s[t..] + "";
      assert Concat([s[..t], s[t..]]) == s;
    } else {
      forall pieces | Concat(pieces) == s ensures ReceivedAll(cfg, INITIAL, pieces) == ReceivedAll(cfg, INITIAL, [s]) {
        PiecesDoNotMatter(cfg, pieces);
      }
    }
  }

  /** Such streams exist as soon as some character is trapped: a frame begun with a, given up at t,
      then a frame with b. */
  lemma SpoiledExample(cfg: Config, a: char, b: char, t: char)
    requires Trapped(cfg, t) && !Trapped(cfg, a) && !Trapped(cfg, b) && !Trapped(cfg, cfg.eof)
    requires a != cfg.eof && a != cfg.esc && b != cfg.eof && b != cfg.esc
    ensures Spoiled(cfg, START, [cfg.sof, a, t] + [cfg.sof, b, cfg.eof])
  {
    hide Frames, After;
    var s := [cfg.sof, a, t] + [cfg.sof, b, cfg.eof];
    var stale := Scanner(false, false, "", [a]);
    ThreeMore(cfg, START, cfg.sof, a, t);
    ThreeMore(cfg, stale, cfg.sof, b, cfg.eof);
    assert "" + [a] == [a] && [] + [b] == [b];
    assert s[..3] == [cfg.sof, a, t] && s[3..] == [cfg.sof, b, cfg.eof];
    assert |stale.kept + stale.local| == 1;
  }

  /** With the characters the simulator uses, and the Roman numeral for five thousand, which the
      platform gives that numeric value: the frame is b in one piece and ab in two. */
  lemma OldContentShows(cfg: Config)
    requires cfg.sof == '^' && cfg.eof == ';' && cfg.esc == '`'
    requires cfg.numeric('\U{2181}') == 5000 && cfg.numeric('a') < 0 && cfg.numeric('b') < 0 && cfg.numeric(';') < 0
    ensures ReceivedAll(cfg, INITIAL, ["^a\U{2181}^b;"]) == ["b"]
    ensures ReceivedAll(cfg, INITIAL, ["^a\U{2181}", "^b;"]) == ["ab"]
  {
    hide Frames, After, ReceivedAll;
    var t := '\U{2181}';
    var stale, kept := Scanner(false, false, "", "a"), Scanner(false, false, "a", "");
    ThreeMore(cfg, START, '^', 'a', t);
    ThreeMore(cfg, stale, '^', 'b', ';');
    ThreeMore(cfg, kept, '^', 'b', ';');
    assert "" + "a" == "a" && "" + "b" == "b" && "a" + "b" == "ab" && "a" + "" == "a";
    assert "^a\U{2181}^b;" == ['^', 'a', t] + ['^', 'b', ';'];
    FramesAppend(cfg, START, ['^', 'a', t], ['^', 'b', ';']);
    OnePiece(cfg, "^a\U{2181}^b;");
    TwoPieces(cfg, "^a\U{2181}", "^b;");
  }

  lemma ThreeMore(cfg: Config, st: Scanner, x: char, y: char, z: char)
    ensures var a := Scan(cfg, st, x); var b := Scan(cfg, a.0, y); var c := Scan(cfg, b.0, z);
      && Frames(cfg, st, [x, y, z]) == Completed(a.1) + Completed(b.1) + Completed(c.1)
      && After(cfg, st, [x, y, z]) == c.0
  {
    hide Frames, After, Scan;
    var a := Scan(cfg, st, x).0;
    OneMore(cfg, st, x);
    OneMore(cfg, a, y);
    OneMore(cfg, Scan(cfg, a, y).0, z);
    FramesAppend(cfg, st, [x], [y]);
    FramesAppend(cfg, st, [x] + [y], [z]);
    assert [x] + [y] + [z] == [x, y, z];
  }

  lemma {:induction false} NeverStale(cfg: Config, st: Scanner, s: string)
    requires NoTraps(cfg, s) && !Stale(st)
    ensures !Stale(After(cfg, st, s))
    decreases |s|
  {
    if s != "" {
      assert !Trapped(cfg, s[0]);
      var st' := Scan(cfg, st, s[0]).0;
      assert !Stale(st');
      assert forall k :: 0 <= k < |s[1..]| ==> s[1..][k] == s[k + 1];
      NeverStale(cfg, st', s[1..]);
    }
  }

  /** So do all streams without trapped characters. */
  lemma UntrappedInAnyPieces(cfg: Config, pieces: seq<string>)
    requires NoTraps(cfg, Concat(pieces))
    ensures ReceivedAll(cfg, INITIAL, pieces) == Frames(cfg, START, Concat(pieces))
  {
    hide Frames, ReceivedAll, After;
    var s := Concat(pieces);
    forall t | 0 <= t <= |s| ensures !Stale(After(cfg, START, s[..t])) {
      NeverStale(cfg, START, s[..t]);
    }
    PiecesDoNotMatter(cfg, pieces);
  }

  /** The numeric value of an ASCII character: that of a digit, or less. */
  ghost predicate AsciiDigits(cfg: Config) {
    forall c: char :: c < '\U{80}' ==> cfg.numeric(c) <= 9
  }

  ghost predicate Ascii(s: string) {
    forall k :: 0 <= k < |s| ==> s[k] < '\U{80}'
  }

  /** ASCII streams among them. */
  lemma AsciiInAnyPieces(cfg: Config, pieces: seq<string>)
    requires AsciiDigits(cfg) && Ascii(Concat(pieces))
    ensures ReceivedAll(cfg, INITIAL, pieces) == Frames(cfg, START, Concat(pieces))
  {
    hide Frames, ReceivedAll;
    var s := Concat(pieces);
    forall k | 0 <= k < |s| ensures !Trapped(cfg, s[k]) {
      assert s[k] < '\U{80}' && cfg.numeric(s[k]) <= 9;
    }
    UntrappedInAnyPieces(cfg, pieces);
  }

  // ---------------------------------------------------------------------- round trips

  function Escaped(cfg: Config, payload: string): string {
    if payload == "" then ""
    else EscapedChar(cfg, payload[0]) + Escaped(cfg, payload[1..])
  }

  function EscapedChar(cfg: Config, c: char): string {
    if c == cfg.eof || c == cfg.esc then [cfg.esc, c] else [c]
  }

  function Encoded(cfg: Config, payloads: seq<string>): string {
    if payloads == [] then "" else [cfg.sof] + Escaped(cfg, payloads[0]) + [cfg.eof] + Encoded(cfg, payloads[1..])
  }

  lemma {:induction false} EscapedScans(cfg: Config, st: Scanner, p: string)
    requires cfg.eof != cfg.esc && !Trapped(cfg, cfg.esc) && NoTraps(cfg, p)
    requires st.inFrame && !st.escaping
    ensures Frames(cfg, st, Escaped(cfg, p)) == [] && After(cfg, st, Escaped(cfg, p)) == st.(local := st.local + p)
    decreases |p|
  {
    hide Frames, After, Trapped, EscapedChar;
    if p == "" {
      assert st.local + p == st.local;
      NoneMore(cfg, st);
    } else {
      var c, t := p[0], p[1..];
      assert !Trapped(cfg, p[0]);
      OneEscaped(cfg, st, c);
      var st' := st.(local := st.local + [c]);
      FramesAppend(cfg, st, EscapedChar(cfg, c), Escaped(cfg, t));
      assert forall k :: 0 <= k < |t| ==> t[k] == p[k + 1];
      EscapedScans(cfg, st', t);
      assert (st.local + [c]) + t == st.local + p;
    }
  }

  lemma NoneMore(cfg: Config, st: Scanner)
    ensures Frames(cfg, st, "") == [] && After(cfg, st, "") == st
  {
  }

  lemma OneEscaped(cfg: Config, st: Scanner, c: char)
    requires cfg.eof != cfg.esc && !Trapped(cfg, cfg.esc) && !Trapped(cfg, c)
    requires st.inFrame && !st.escaping
    ensures Frames(cfg, st, EscapedChar(cfg, c)) == []
    ensures After(cfg, st, EscapedChar(cfg, c)) == st.(local := st.local + [c])
  {
    hide Frames, After;
    OneMore(cfg, st, c);
    if c == cfg.eof || c == cfg.esc {
      OneMore(cfg, st, cfg.esc);
      OneMore(cfg, st.(escaping := true), c);
      FramesAppend(cfg, st, [cfg.esc], [c]);
      assert [cfg.esc] + [c] == [cfg.esc, c];
    }
  }

  lemma OneMore(cfg: Config, st: Scanner, c: char)
    ensures Frames(cfg, st, [c]) == Completed(Scan(cfg, st, c).1) && After(cfg, st, [c]) == Scan(cfg, st, c).0
  {
    hide Scan;
    var st' := Scan(cfg, st, c).0;
    assert [c][1..] == "";
    assert Frames(cfg, st', "") == [] && After(cfg, st', "") == st';
    assert Frames(cfg, st, [c]) == Completed(Scan(cfg, st, c).1) + [];
  }

  lemma {:induction false} EncodedScans(cfg: Config, payloads: seq<string>)
    requires cfg.eof != cfg.esc && !Trapped(cfg, cfg.esc) && !Trapped(cfg, cfg.eof)
    requires forall k :: 0 <= k < |payloads| ==> NoTraps(cfg, payloads[k])
    ensures Frames(cfg, START, Encoded(cfg, payloads)) == payloads && After(cfg, START, Encoded(cfg, payloads)) == START
    decreases |payloads|
  {
    if payloads != [] {
      var p, rest := payloads[0], Encoded(cfg, payloads[1..]);
      var one := [cfg.sof] + Escaped(cfg, p) + [cfg.eof];
      OneFrame(cfg, p);
      FramesAppend(cfg, START, one, rest);
      EncodedScans(cfg, payloads[1..]);
      assert payloads == [p] + payloads[1..];
    }
  }

  lemma OneFrame(cfg: Config, p: string)
    requires cfg.eof != cfg.esc && !Trapped(cfg, cfg.esc) && !Trapped(cfg, cfg.eof) && NoTraps(cfg, p)
    ensures var one := [cfg.sof] + Escaped(cfg, p) + [cfg.eof];
      Frames(cfg, START, one) == [p] && After(cfg, START, one) == START
  {
    hide Frames, After, Escaped;
    var begun := Scanner(true, false, "", "");
    var full := begun.(local := p);
    OneMore(cfg, START, cfg.sof);
    EscapedScans(cfg, begun, p);
    assert begun.local + p == p && full.kept + full.local == p;
    OneMore(cfg, full, cfg.eof);
    FramesAppend(cfg, START, [cfg.sof], Escaped(cfg, p));
    FramesAppend(cfg, START, [cfg.sof] + Escaped(cfg, p), [cfg.eof]);
  }

  lemma {:induction false} EscapedNoTraps(cfg: Config, p: string)
    requires !Trapped(cfg, cfg.esc) && NoTraps(cfg, p)
    ensures NoTraps(cfg, Escaped(cfg, p))
  {
    hide Trapped;
    if p != "" {
      assert !Trapped(cfg, p[0]);
      assert forall k :: 0 <= k < |p[1..]| ==> p[1..][k] == p[k + 1];
      EscapedNoTraps(cfg, p[1..]);
    }
  }

  lemma {:induction false} EncodedNoTraps(cfg: Config, payloads: seq<string>)
    requires !Trapped(cfg, cfg.sof) && !Trapped(cfg, cfg.esc) && !Trapped(cfg, cfg.eof)
    requires forall k :: 0 <= k < |payloads| ==> NoTraps(cfg, payloads[k])
    ensures NoTraps(cfg, Encoded(cfg, payloads))
    decreases |payloads|
  {
    hide Trapped, Escaped;
    if payloads != [] {
      EscapedNoTraps(cfg, payloads[0]);
      EncodedNoTraps(cfg, payloads[1..]);
    }
  }

  /** Payloads that are escaped, framed, and sent in any pieces come back. */
  lemma RoundTrip(cfg: Config, payloads: seq<string>, pieces: seq<string>)
    requires cfg.eof != cfg.esc && !Trapped(cfg, cfg.sof) && !Trapped(cfg, cfg.esc) && !Trapped(cfg, cfg.eof)
    requires forall k :: 0 <= k < |payloads| ==> NoTraps(cfg, payloads[k])
    requires Concat(pieces) == Encoded(cfg, payloads)
    ensures ReceivedAll(cfg, INITIAL, pieces) == payloads
  {
    hide Frames, ReceivedAll, After, Encoded, NoTraps, Trapped, Concat;
    EncodedScans(cfg, payloads);
    EncodedNoTraps(cfg, payloads);
    UntrappedInAnyPieces(cfg, pieces);
  }

  // -------------------------------------------------------- any sender, and a noisy line

  /** w is a way to send p: any character may be escaped, the end and escape characters must be. */
  ghost predicate Sends(cfg: Config, w: string, p: string)
    decreases |w|
  {
    if w == "" then p == ""
    else if w[0] == cfg.esc then |w| > 1 && p != "" && p[0] == w[1] && Sends(cfg, w[2..], p[1..])
    else w[0] != cfg.eof && p != "" && p[0] == w[0] && Sends(cfg, w[1..], p[1..])
  }

  /** Nothing in it starts a frame. */
  ghost predicate Noise(cfg: Config, s: string) {
    forall k :: 0 <= k < |s| ==> s[k] != cfg.sof
  }

  /** No character is trapped inside a frame. */
  ghost predicate Calm(cfg: Config, st: Scanner, s: string)
    decreases |s|
  {
    s != "" ==> (st.inFrame ==> !Trapped(cfg, s[0])) && Calm(cfg, Scan(cfg, st, s[0]).0, s[1..])
  }

  lemma {:induction false} CalmAppend(cfg: Config, st: Scanner, a: string, b: string)
    ensures Calm(cfg, st, a + b) <==> Calm(cfg, st, a) && Calm(cfg, After(cfg, st, a), b)
    decreases |a|
  {
    hide Scan;
    if a == "" {
      assert a + b == b;
    } else {
      assert (a + b)[1..] == a[1..] + b;
      CalmAppend(cfg, Scan(cfg, st, a[0]).0, a[1..], b);
    }
  }

  lemma CalmOne(cfg: Config, st: Scanner, c: char)
    ensures Calm(cfg, st, [c]) <==> (st.inFrame ==> !Trapped(cfg, c))
  {
    assert [c][1..] == "";
  }

  lemma {:induction false} CalmIsNeverStale(cfg: Config, st: Scanner, s: string)
    requires Calm(cfg, st, s) && !Stale(st)
    ensures !Stale(After(cfg, st, s))
    decreases |s|
  {
    if s != "" {
      var st' := Scan(cfg, st, s[0]).0;
      assert !Stale(st');
      CalmIsNeverStale(cfg, st', s[1..]);
    }
  }

  lemma CalmInAnyPieces(cfg: Config, pieces: seq<string>)
    requires Calm(cfg, START, Concat(pieces))
    ensures ReceivedAll(cfg, INITIAL, pieces) == Frames(cfg, START, Concat(pieces))
  {
    hide Frames, ReceivedAll, After, Calm;
    var s := Concat(pieces);
    forall t | 0 <= t <= |s| ensures !Stale(After(cfg, START, s[..t])) {
      assert s[..t] + s[t..] == s;
      CalmAppend(cfg, START, s[..t], s[t..]);
      CalmIsNeverStale(cfg, START, s[..t]);
    }
    PiecesDoNotMatter(cfg, pieces);
  }

  lemma {:induction false} NoiseScans(cfg: Config, st: Scanner, s: string)
    requires Noise(cfg, s) && !st.inFrame
    ensures Frames(cfg, st, s) == [] && After(cfg, st, s) == st && Calm(cfg, st, s)
    decreases |s|
  {
    if s != "" {
      assert forall k :: 0 <= k < |s[1..]| ==> s[1..][k] == s[k + 1];
      NoiseScans(cfg, st, s[1..]);
    }
  }

  lemma {:induction false} SentScans(cfg: Config, st: Scanner, w: string, p: string)
    requires cfg.eof != cfg.esc && Sends(cfg, w, p) && NoTraps(cfg, w) && st.inFrame && !st.escaping
    ensures Frames(cfg, st, w) == [] && After(cfg, st, w) == st.(local := st.local + p) && Calm(cfg, st, w)
    decreases |w|
  {
    hide Frames, After, Calm, Trapped;
    if w == "" {
      assert st.local + p == st.local;
      NoneMore(cfg, st);
      assert Calm(cfg, st, w) by { CalmNone(cfg, st); }
    } else {
      var k := if w[0] == cfg.esc then 2 else 1;
      var st' := st.(local := st.local + [p[0]]);
      FirstSent(cfg, st, w, p, k);
      assert forall i :: 0 <= i < |w[k..]| ==> w[k..][i] == w[k + i];
      SentScans(cfg, st', w[k..], p[1..]);
      assert w == w[..k] + w[k..] && (st.local + [p[0]]) + p[1..] == st.local + p;
      FramesAppend(cfg, st, w[..k], w[k..]);
      CalmAppend(cfg, st, w[..k], w[k..]);
    }
  }

  lemma CalmNone(cfg: Config, st: Scanner)
    ensures Calm(cfg, st, "")
  {
  }

  /** The first character of the payload, escaped or not. */
  lemma FirstSent(cfg: Config, st: Scanner, w: string, p: string, k: nat)
    requires cfg.eof != cfg.esc && NoTraps(cfg, w) && st.inFrame && !st.escaping
    requires k <= |w| && p != ""
    requires if k == 2 then w[0] == cfg.esc && w[1] == p[0] else k == 1 && w[0] == p[0] && w[0] !in {cfg.esc, cfg.eof}
    ensures Frames(cfg, st, w[..k]) == [] && After(cfg, st, w[..k]) == st.(local := st.local + [p[0]])
    ensures Calm(cfg, st, w[..k])
  {
    hide Frames, After, Calm;
    assert !Trapped(cfg, w[0]);
    OneMore(cfg, st, w[0]);
    CalmOne(cfg, st, w[0]);
    if k == 2 {
      assert !Trapped(cfg, w[1]);
      var st' := st.(escaping := true);
      OneMore(cfg, st', w[1]);
      CalmOne(cfg, st', w[1]);
      assert w[..2] == [w[0]] + [w[1]];
      FramesAppend(cfg, st, [w[0]], [w[1]]);
      CalmAppend(cfg, st, [w[0]], [w[1]]);
    } else {
      assert w[..1] == [w[0]];
    }
  }

  /** Frames with something before, between and after them. */
  ghost function Line(cfg: Config, noises: seq<string>, wires: seq<string>): string
    requires |noises| == |wires| + 1
    decreases |wires|
  {
    if wires == [] then noises[0]
    else noises[0] + ([cfg.sof] + wires[0] + [cfg.eof]) + Line(cfg, noises[1..], wires[1..])
  }

  ghost predicate AllSent(cfg: Config, wires: seq<string>, payloads: seq<string>) {
    && |wires| == |payloads|
    && forall k :: 0 <= k < |wires| ==> Sends(cfg, wires[k], payloads[k]) && NoTraps(cfg, wires[k])
  }

  ghost predicate AllNoise(cfg: Config, noises: seq<string>) {
    forall k :: 0 <= k < |noises| ==> Noise(cfg, noises[k])
  }

  lemma OneSent(cfg: Config, w: string, p: string)
    requires cfg.eof != cfg.esc && !Trapped(cfg, cfg.eof) && Sends(cfg, w, p) && NoTraps(cfg, w)
    ensures var one := [cfg.sof] + w + [cfg.eof];
      Frames(cfg, START, one) == [p] && After(cfg, START, one) == START && Calm(cfg, START, one)
  {
    hide Frames, After, Calm, Sends;
    var begun := Scanner(true, false, "", "");
    var full := begun.(local := p);
    OneMore(cfg, START, cfg.sof);
    CalmOne(cfg, START, cfg.sof);
    SentScans(cfg, begun, w, p);
    assert begun.local + p == p && full.kept + full.local == p;
    OneMore(cfg, full, cfg.eof);
    CalmOne(cfg, full, cfg.eof);
    FramesAppend(cfg, START, [cfg.sof], w);
    CalmAppend(cfg, START, [cfg.sof], w);
    FramesAppend(cfg, START, [cfg.sof] + w, [cfg.eof]);
    CalmAppend(cfg, START, [cfg.sof] + w, [cfg.eof]);
  }

  lemma {:induction false} LineScans(cfg: Config, noises: seq<string>, wires: seq<string>, payloads: seq<string>)
    requires cfg.eof != cfg.esc && !Trapped(cfg, cfg.eof) && |noises| == |wires| + 1
    requires AllNoise(cfg, noises) && AllSent(cfg, wires, payloads)
    ensures var line := Line(cfg, noises, wires);
      Frames(cfg, START, line) == payloads && After(cfg, START, line) == START && Calm(cfg, START, line)
    decreases |wires|
  {
    hide Frames, After, Calm, Sends, Noise, NoTraps;
    NoiseScans(cfg, START, noises[0]);
    if wires != [] {
      var one, rest := [cfg.sof] + wires[0] + [cfg.eof], Line(cfg, noises[1..], wires[1..]);
      OneSent(cfg, wires[0], payloads[0]);
      FramesAppend(cfg, START, noises[0], one);
      CalmAppend(cfg, START, noises[0], one);
      LineScans(cfg, noises[1..], wires[1..], payloads[1..]);
      FramesAppend(cfg, START, noises[0] + one, rest);
      CalmAppend(cfg, START, noises[0] + one, rest);
      assert payloads == [payloads[0]] + payloads[1..];
    }
  }

  /** Whatever a sender escapes beyond what it must, whatever is on the line between frames, trapped
      characters too, and however it is cut into pieces: exactly the payloads come out. */
  lemma NoiseDoesNotMatter(cfg: Config, noises: seq<string>, wires: seq<string>, payloads: seq<string>,
                           pieces: seq<string>)
    requires cfg.eof != cfg.esc && !Trapped(cfg, cfg.eof) && |noises| == |wires| + 1
    requires AllNoise(cfg, noises) && AllSent(cfg, wires, payloads) && Concat(pieces) == Line(cfg, noises, wires)
    ensures ReceivedAll(cfg, INITIAL, pieces) == payloads
  {
    hide Frames, ReceivedAll, Calm, Line, AllSent, AllNoise, Concat;
    LineScans(cfg, noises, wires, payloads);
    CalmInAnyPieces(cfg, pieces);
  }

  /** A trapped character gives the frame up: what follows is received as if it had not begun. */
  lemma TrapGivesUp(cfg: Config, w: string, p: string, t: char, s: string)
    requires cfg.eof != cfg.esc && Sends(cfg, w, p) && NoTraps(cfg, w) && Trapped(cfg, t)
    ensures ReceivedAll(cfg, INITIAL, [[cfg.sof] + w + [t] + s]) == ReceivedAll(cfg, INITIAL, [s])
  {
    hide Frames, After, Calm, Sends, ReceivedAll;
    var begun := Scanner(true, false, "", "");
    var full, stale := begun.(local := p), Scanner(false, false, "", p);
    OneMore(cfg, START, cfg.sof);
    SentScans(cfg, begun, w, p);
    assert begun.local + p == p;
    OneMore(cfg, full, t);
    FramesAppend(cfg, START, [cfg.sof], w);
    FramesAppend(cfg, START, [cfg.sof] + w, [t]);
    FramesAppend(cfg, START, [cfg.sof] + w + [t], s);
    Forgotten(cfg, stale, s);
    OnePiece(cfg, s);
    OnePiece(cfg, [cfg.sof] + w + [t] + s);
  }

  lemma {:induction false} Forgotten(cfg: Config, st: Scanner, s: string)
    requires !st.inFrame
    ensures Frames(cfg, st, s) == Frames(cfg, st.(local := ""), s)
    decreases |s|
  {
    if s != "" && s[0] != cfg.sof { Forgotten(cfg, st, s[1..]); }
  }

  /** The end and escape characters must differ for that, and nothing else must. */
  lemma RoundTripIff(cfg: Config)
    requires !Trapped(cfg, cfg.sof) && !Trapped(cfg, cfg.esc) && !Trapped(cfg, cfg.eof)
    ensures cfg.eof != cfg.esc <==>
      forall p :: NoTraps(cfg, p) ==> ReceivedAll(cfg, INITIAL, [Encoded(cfg, [p])]) == [p]
  {
    hide Frames, ReceivedAll, After, Encoded, Trapped;
    if cfg.eof != cfg.esc {
      forall p | NoTraps(cfg, p) ensures ReceivedAll(cfg, INITIAL, [Encoded(cfg, [p])]) == [p] {
        var s := Encoded(cfg, [p]);
        assert Concat([s]) == s by { assert [s][1..] == []; assert s + "" == s; }
        RoundTrip(cfg, [p], [s]);
      }
    } else {
      var p := [cfg.eof];
      EndsEarly(cfg);
      assert NoTraps(cfg, p);
      assert ReceivedAll(cfg, INITIAL, [Encoded(cfg, [p])]) != [p];
    }
  }

  lemma EndsEarly(cfg: Config)
    requires cfg.eof == cfg.esc && !Trapped(cfg, cfg.eof)
    ensures ReceivedAll(cfg, INITIAL, [Encoded(cfg, [[cfg.eof]])]) != [[cfg.eof]]
  {
    hide Frames, After, ReceivedAll;
    var e := cfg.eof;
    var s := Encoded(cfg, [[e]]);
    var q := [[e]];
    assert [e][1..] == "" && q[0] == [e] && q[1..] == [];
    assert Escaped(cfg, [e]) == [e, e] + Escaped(cfg, "");
    assert Encoded(cfg, []) == "";
    assert s == [cfg.sof] + Escaped(cfg, [e]) + [e] + Encoded(cfg, q[1..]);
    assert s == [cfg.sof] + ([e] + [e, e]);
    OnePiece(cfg, s);
    var begun := Scanner(true, false, "", "");
    OneMore(cfg, START, cfg.sof);
    OneMore(cfg, begun, e);
    FramesAppend(cfg, START, [cfg.sof], [e] + [e, e]);
    FramesAppend(cfg, begun, [e], [e, e]);
    assert Frames(cfg, START, s)[0] == "" + "" == "";
  }
}
