/** The reading of the keys typed by the user. A label turns its face a quarter turn
    clockwise; a minus before the label or an apostrophe right after it makes the turn
    anticlockwise; repeated labels add up; the turns of a face are handed on only once
    another face, or the end of a line, shows that the run of that face is over. */
module Parser {
  import opened Wrappers
  import opened Geometry
  import opened Labels
  import opened CubeState

  /** A face with the number of quarter turns to give it. */
  datatype Move = Move(face: int, times: int)

  /** What the reader remembers between keys: the sign of the pending face, the quarter
      turns gathered for the saved face, the last key, the last key that was a label
      ('\0' when the last key was none), the face just typed and the face whose turns
      are being gathered. */
  datatype InputState = InputState(pendingSign: int, times: int, lastChr: char,
                                   lastFaceChr: char, pendingFace: int, savedFace: int)

  /** The state before any key: nothing pending, nothing saved. */
  function InitialInput(): (st: InputState)
    ensures st.pendingFace == EMPTY_COLOR && st.savedFace == EMPTY_COLOR
    ensures st.pendingSign == 1 && st.times == 0
    ensures st.lastChr == '\0' && st.lastFaceChr == '\0'
  {
    InputState(1, 0, '\0', '\0', EMPTY_COLOR, EMPTY_COLOR)
  }

  /** Hands on the turns gathered for the saved face and forgets that face. */
  function TurnSaved(st: InputState): (r: (InputState, Option<Move>))
    ensures r.1 == Some(Move(st.savedFace, st.times))
    ensures r.0 == st.(savedFace := EMPTY_COLOR, times := 0)
  {
    (st.(savedFace := EMPTY_COLOR, times := 0), Some(Move(st.savedFace, st.times)))
  }

  /** Adds the pending face's quarter turn, with its sign, to the turns of the saved face,
      which the pending face becomes. */
  function SavePending(st: InputState): (r: InputState)
    ensures r.savedFace == st.pendingFace && r.pendingFace == EMPTY_COLOR
    ensures r.times == st.times + st.pendingSign && r.pendingSign == 1
    ensures r.lastChr == st.lastChr && r.lastFaceChr == st.lastFaceChr
  {
    st.(savedFace := st.pendingFace, pendingFace := EMPTY_COLOR,
        times := st.times + st.pendingSign, pendingSign := 1)
  }

  /** Closes the pending face: when it differs from the saved face, the saved face's turns
      are handed on first; then the pending face is saved. */
  function ClosePending(st: InputState): (r: (InputState, Option<Move>))
    ensures r.1.Some? <==> st.savedFace != EMPTY_COLOR && st.savedFace != st.pendingFace
    ensures r.1.Some? ==> r.1.value == Move(st.savedFace, st.times)
    ensures r.0.savedFace == st.pendingFace && r.0.pendingFace == EMPTY_COLOR
    ensures r.0.times == (if r.1.Some? then 0 else st.times) + st.pendingSign
  {
    if st.savedFace != EMPTY_COLOR && st.savedFace != st.pendingFace then
      var (t, m) := TurnSaved(st);
      (SavePending(t), m)
    else
      (SavePending(st), None)
  }

  /** What the sign, the saved face and its turns may be between keys: a sign is +1 or -1,
      and no turns are gathered while no face is saved. */
  predicate Settled(st: InputState) {
    (st.pendingSign == 1 || st.pendingSign == -1)
    && (st.savedFace == EMPTY_COLOR ==> st.times == 0)
  }

  /** The faces the reader holds are faces of the cube, or none. */
  predicate HoldsFaces(st: InputState) {
    (st.pendingFace == EMPTY_COLOR || IsFace(st.pendingFace))
    && (st.savedFace == EMPTY_COLOR || IsFace(st.savedFace))
  }

  /** The effect of one key on the reader, and the move it completes, if any. A move is
      always the saved face with the turns gathered for it, and comes only from a label or
      from the end of a line; the reader stays settled. */
  function Step(chars: string, st: InputState, c: char): (r: (InputState, Option<Move>))
    requires IsCString(chars)
    ensures r.1.Some? ==> r.1.value == Move(st.savedFace, st.times) && st.savedFace != EMPTY_COLOR
    ensures r.1.Some? ==> c == '\n' || CharToColor(chars, c) != EMPTY_COLOR
    ensures Settled(st) ==> Settled(r.0)
    ensures r.0.lastChr == c
  {
    var f := CharToColor(chars, c);
    if f != EMPTY_COLOR then
      var (t, m) := if st.pendingFace != EMPTY_COLOR then ClosePending(st) else (st, None);
      (t.(pendingFace := f, pendingSign := if st.lastChr == MINUS then -1 else t.pendingSign,
          lastFaceChr := c, lastChr := c), m)
    else if c == APOS then
      (st.(pendingSign := if st.lastChr == st.lastFaceChr then -1 else st.pendingSign,
           lastFaceChr := '\0', lastChr := c), None)
    else if c == '\n' then
      var (t, m) := if st.pendingFace != EMPTY_COLOR then ClosePending(st)
                    else if st.savedFace != EMPTY_COLOR then TurnSaved(st)
                    else (st, None);
      (t.(lastFaceChr := '\0', lastChr := c), m)
    else
      (st.(lastFaceChr := '\0', lastChr := c), None)
  }

  /** Under valid labels, the reader only ever holds faces of the cube, so that every move
      it hands on names a face. */
  lemma StepHoldsFaces(chars: string, st: InputState, c: char)
    requires ColorCharsOk(chars) && HoldsFaces(st)
    ensures HoldsFaces(Step(chars, st, c).0)
    ensures Step(chars, st, c).1.Some? ==> IsFace(Step(chars, st, c).1.value.face)
  {
    CharToColorRange(chars, c);
  }

  /** A key that is no label, no apostrophe and no end of line only records itself as
      the last key and as no label; it hands on nothing. */
  lemma OtherKeyIgnored(chars: string, st: InputState, c: char)
    requires IsCString(chars) && c !in chars && c != APOS && c != '\n'
    ensures Step(chars, st, c) == (st.(lastChr := c, lastFaceChr := '\0'), None)
  {
  }

  /** Two ends of line in a row leave nothing pending and nothing saved, and, for a
      settled reader, no turns gathered. */
  lemma TwoNewlinesFlush(chars: string, st: InputState)
    requires IsCString(chars) && '\n' !in chars
    ensures var s2 := Step(chars, Step(chars, st, '\n').0, '\n').0;
      s2.pendingFace == EMPTY_COLOR && s2.savedFace == EMPTY_COLOR
      && (Settled(st) ==> s2.times == 0)
  {
  }

  /** The keys of a string, fed one by one, and the moves they complete, in order. */
  function Feed(chars: string, st: InputState, s: string): (r: (InputState, seq<Move>))
    requires IsCString(chars)
    ensures |r.1| <= |s|
    ensures Settled(st) ==> Settled(r.0)
    decreases |s|
  {
    if |s| == 0 then (st, [])
    else
      var (t, m) := Step(chars, st, s[0]);
      var (u, ms) := Feed(chars, t, s[1..]);
      (u, Emitted(m) + ms)
  }

  /** Feeding two strings one after the other is feeding their concatenation. */
  lemma {:induction false} FeedAppend(chars: string, st: InputState, s: string, t: string)
    requires IsCString(chars)
    ensures var (u, ms) := Feed(chars, st, s);
      Feed(chars, st, s + t) == (Feed(chars, u, t).0, ms + Feed(chars, u, t).1)
    decreases |s|
  {
    if |s| == 0 {
      assert s + t == t;
      assert [] + Feed(chars, st, t).1 == Feed(chars, st, t).1;
    } else {
      assert (s + t)[0] == s[0] && (s + t)[1..] == s[1..] + t;
      var (t1, m) := Step(chars, st, s[0]);
      FeedAppend(chars, t1, s[1..], t);
      var (u, ms) := Feed(chars, t1, s[1..]);
      var (v, ns) := Feed(chars, u, t);
      assert Emitted(m) + (ms + ns) == (Emitted(m) + ms) + ns;
    }
  }

  /** The reader at rest, as it is when a line has been read: nothing pending, nothing
      saved, a positive sign, and an end of line as the last key. */
  function AtRest(): (st: InputState)
    ensures Settled(st) && st.pendingFace == EMPTY_COLOR && st.savedFace == EMPTY_COLOR
  {
    InputState(1, 0, '\n', '\0', EMPTY_COLOR, EMPTY_COLOR)
  }

  /** The keys the input loop of the program gives the reader for the characters it
      reads: every other key once and every end of line twice. The end of line the loop
      starts with is the first character of what it reads (see MainLoop). */
  function MainKeys(s: string): (keys: string)
    ensures |keys| >= |s|
    ensures forall c :: c in keys <==> c in s
    ensures '\n' !in s ==> keys == s
    decreases |s|
  {
    if |s| == 0 then "" else (if s[0] == '\n' then "\n\n" else [s[0]]) + MainKeys(s[1..])
  }

  /** How often the loop feeds each key: every other character as often as it was read,
      and an end of line twice as often. */
  lemma {:induction false} MainKeysCounts(s: string)
    ensures forall c :: c != '\n' ==> multiset(MainKeys(s))[c] == multiset(s)[c]
    ensures multiset(MainKeys(s))['\n'] == 2 * multiset(s)['\n']
    decreases |s|
  {
    if |s| > 0 {
      var head := if s[0] == '\n' then "\n\n" else [s[0]];
      assert s == [s[0]] + s[1..];
      assert MainKeys(s) == head + MainKeys(s[1..]);
      MainKeysCounts(s[1..]);
      assert multiset(MainKeys(s)) == multiset(head) + multiset(MainKeys(s[1..]));
      assert multiset(s) == multiset([s[0]]) + multiset(s[1..]);
    }
  }

  /** The keys fed for two stretches of input, one after the other, are the keys fed for
      their concatenation: the loop treats each character on its own. */
  lemma {:induction false} MainKeysAppend(s: string, t: string)
    ensures MainKeys(s + t) == MainKeys(s) + MainKeys(t)
    decreases |s|
  {
    if |s| == 0 {
      assert s + t == t;
    } else {
      var c, u := s[0], s[1..];
      assert s == [c] + u;
      assert s + t == [c] + (u + t);
      MainKeysAppend(u, t);
      MainKeysCons(c, u);
      MainKeysCons(c, u + t);
      var k := if c == '\n' then "\n\n" else [c];
      ConcatAssoc(k, MainKeys(u), MainKeys(t));
    }
  }

  /** Concatenation of strings is associative. */
  lemma ConcatAssoc(a: string, b: string, c: string)
    ensures a + (b + c) == (a + b) + c
  {
  }

  /** The keys fed for a character and then a string. */
  lemma MainKeysCons(c: char, u: string)
    ensures MainKeys([c] + u) == (if c == '\n' then "\n\n" else [c]) + MainKeys(u)
  {
    assert ([c] + u)[0] == c && ([c] + u)[1..] == u;
  }

  /** The whole input loop: it starts with an end of line, fed twice to the fresh reader,
      and then feeds what was typed; this is the typed keys fed from rest. */
  lemma MainLoop(chars: string, s: string)
    requires IsCString(chars) && '\n' !in chars
    ensures MainKeys("\n" + s) == "\n\n" + MainKeys(s)
    ensures Feed(chars, InitialInput(), MainKeys("\n" + s)) == Feed(chars, AtRest(), MainKeys(s))
  {
    MainKeysAppend("\n", s);
    assert MainKeys("\n") == "\n\n";
    StartsAtRest(chars);
    FeedAppend(chars, InitialInput(), "\n\n", MainKeys(s));
    assert [] + Feed(chars, AtRest(), MainKeys(s)).1 == Feed(chars, AtRest(), MainKeys(s)).1;
  }

  /** The end of line the program feeds before the first key takes the fresh reader to
      rest. */
  lemma StartsAtRest(chars: string)
    requires IsCString(chars) && '\n' !in chars
    ensures Feed(chars, InitialInput(), "\n\n") == (AtRest(), [])
  {
  }

  /** The moves a key completes, as a sequence. */
  function Emitted(m: Option<Move>): (ms: seq<Move>)
    ensures |ms| <= 1 && (m.Some? ==> ms == [m.value])
  {
    if m.Some? then [m.value] else []
  }

  /** Feeding a key and then a string. */
  lemma FeedKey(chars: string, st: InputState, c: char, s: string)
    requires IsCString(chars)
    ensures Feed(chars, st, [c] + s)
      == (Feed(chars, Step(chars, st, c).0, s).0,
          Emitted(Step(chars, st, c).1) + Feed(chars, Step(chars, st, c).0, s).1)
  {
    assert ([c] + s)[0] == c && ([c] + s)[1..] == s;
  }

  /** From the fresh reader too, typing a label twice and ending the line turns that
      face twice. */
  lemma RepeatedFaceFresh(chars: string, f: Face)
    requires ColorCharsOk(chars)
    ensures Feed(chars, InitialInput(), [chars[f], chars[f], '\n', '\n']) == (AtRest(), [Move(f, 2)])
  {
    CharToColorToChar(chars, f);
    var c := chars[f];
    assert '\n' !in chars;
    var s1 := InputState(1, 0, c, c, f, EMPTY_COLOR);
    var s2 := InputState(1, 1, c, c, f, f);
    assert Step(chars, InitialInput(), c) == (s1, None);
    assert Step(chars, s1, c) == (s2, None);
    EndOfLineTurnsTo(chars, s2, Move(f, 2));
    FeedKey(chars, s1, c, ['\n', '\n']);
    FeedKey(chars, InitialInput(), c, [c, '\n', '\n']);
    assert [c] + ['\n', '\n'] == [c, '\n', '\n'] && [c] + [c, '\n', '\n'] == [c, c, '\n', '\n'];
    assert [] + [Move(f, 2)] == [Move(f, 2)];
  }

  /** Typing a label twice and ending the line turns that face twice. */
  lemma RepeatedFace(chars: string, f: Face)
    requires ColorCharsOk(chars)
    ensures Feed(chars, AtRest(), [chars[f], chars[f], '\n', '\n']) == (AtRest(), [Move(f, 2)])
  {
    CharToColorToChar(chars, f);
    var c := chars[f];
    assert '\n' !in chars;
    var s1 := InputState(1, 0, c, c, f, EMPTY_COLOR);
    var s2 := InputState(1, 1, c, c, f, f);
    assert Step(chars, AtRest(), c) == (s1, None);
    assert Step(chars, s1, c) == (s2, None);
    EndOfLineTurnsTo(chars, s2, Move(f, 2));
    FeedKey(chars, s1, c, ['\n', '\n']);
    FeedKey(chars, AtRest(), c, [c, '\n', '\n']);
    assert [c] + ['\n', '\n'] == [c, '\n', '\n'] && [c] + [c, '\n', '\n'] == [c, c, '\n', '\n'];
    assert [] + [Move(f, 2)] == [Move(f, 2)];
  }

  /** The end of a line that closes a face pending after the same saved face, or after
      none, hands on their turns together and leaves the reader at rest. */
  lemma EndOfLineTurnsTo(chars: string, st: InputState, m: Move)
    requires IsCString(chars) && '\n' !in chars
    requires st.pendingFace != EMPTY_COLOR
    requires st.savedFace == EMPTY_COLOR || st.savedFace == st.pendingFace
    requires st.savedFace == EMPTY_COLOR ==> st.times == 0
    requires m == Move(st.pendingFace, st.times + st.pendingSign)
    ensures Feed(chars, st, ['\n', '\n']) == (AtRest(), [m])
  {
    var s1 := InputState(1, m.times, '\n', '\0', EMPTY_COLOR, m.face);
    assert Step(chars, st, '\n') == (s1, None);
    assert Step(chars, s1, '\n') == (AtRest(), Some(m));
    FeedKey(chars, s1, '\n', []);
    FeedKey(chars, st, '\n', ['\n']);
    assert ['\n'] + [] == ['\n'] && ['\n'] + ['\n'] == ['\n', '\n'];
    assert [m] + [] == [m] && [] + [m] == [m];
  }

  /** Typing two different labels and ending the line turns each face once, in order. */
  lemma TwoFaces(chars: string, f: Face, g: Face)
    requires ColorCharsOk(chars) && f != g
    ensures Feed(chars, AtRest(), [chars[f], chars[g], '\n', '\n'])
      == (AtRest(), [Move(f, 1), Move(g, 1)])
  {
    CharToColorToChar(chars, f);
    CharToColorToChar(chars, g);
    var c, d := chars[f], chars[g];
    assert '\n' !in chars;
    var s1 := InputState(1, 0, c, c, f, EMPTY_COLOR);
    var s2 := InputState(1, 1, d, d, g, f);
    var s3 := InputState(1, 1, '\n', '\0', EMPTY_COLOR, g);
    assert Step(chars, AtRest(), c) == (s1, None);
    assert Step(chars, s1, d) == (s2, None);
    assert Step(chars, s2, '\n') == (s3, Some(Move(f, 1)));
    assert Step(chars, s3, '\n') == (AtRest(), Some(Move(g, 1)));
    FeedKey(chars, s3, '\n', []);
    FeedKey(chars, s2, '\n', ['\n']);
    FeedKey(chars, s1, d, ['\n', '\n']);
    FeedKey(chars, AtRest(), c, [d, '\n', '\n']);
    assert ['\n'] + [] == ['\n'] && ['\n'] + ['\n'] == ['\n', '\n'];
    assert [d] + ['\n', '\n'] == [d, '\n', '\n'] && [c] + [d, '\n', '\n'] == [c, d, '\n', '\n'];
    assert [Move(g, 1)] + [] == [Move(g, 1)] && [Move(f, 1)] + [Move(g, 1)] == [Move(f, 1), Move(g, 1)];
    assert [] + [Move(f, 1), Move(g, 1)] == [Move(f, 1), Move(g, 1)];
  }

  /** An apostrophe after a label turns that face anticlockwise; a second apostrophe
      changes nothing. */
  lemma ApostropheNegates(chars: string, f: Face)
    requires ColorCharsOk(chars)
    ensures Feed(chars, AtRest(), [chars[f], APOS, '\n', '\n']) == (AtRest(), [Move(f, -1)])
    ensures Feed(chars, AtRest(), [chars[f], APOS, APOS, '\n', '\n']) == (AtRest(), [Move(f, -1)])
  {
    CharToColorToChar(chars, f);
    var c := chars[f];
    assert APOS !in chars && '\n' !in chars;
    var typed := InputState(1, 0, c, c, f, EMPTY_COLOR);
    var negated := InputState(-1, 0, APOS, '\0', f, EMPTY_COLOR);
    assert Step(chars, AtRest(), c) == (typed, None);
    assert Step(chars, typed, APOS) == (negated, None);
    assert Step(chars, negated, APOS) == (negated, None);
    EndOfLineTurnsTo(chars, negated, Move(f, -1));
    var nl := ['\n', '\n'];
    FeedKey(chars, typed, APOS, nl);
    FeedKey(chars, AtRest(), c, [APOS] + nl);
    FeedKey(chars, negated, APOS, nl);
    FeedKey(chars, typed, APOS, [APOS] + nl);
    FeedKey(chars, AtRest(), c, [APOS] + ([APOS] + nl));
    assert [c] + ([APOS] + nl) == [c, APOS, '\n', '\n'];
    assert [c] + ([APOS] + ([APOS] + nl)) == [c, APOS, APOS, '\n', '\n'];
    assert [] + [Move(f, -1)] == [Move(f, -1)];
  }

  /** A minus before a label turns that face anticlockwise; an apostrophe after it
      changes nothing. */
  lemma MinusNegates(chars: string, f: Face)
    requires ColorCharsOk(chars)
    ensures Feed(chars, AtRest(), [MINUS, chars[f], '\n', '\n']) == (AtRest(), [Move(f, -1)])
    ensures Feed(chars, AtRest(), [MINUS, chars[f], APOS, '\n', '\n']) == (AtRest(), [Move(f, -1)])
  {
    CharToColorToChar(chars, f);
    var c := chars[f];
    assert APOS !in chars && MINUS !in chars && '\n' !in chars;
    var minus := InputState(1, 0, MINUS, '\0', EMPTY_COLOR, EMPTY_COLOR);
    var typed := InputState(-1, 0, c, c, f, EMPTY_COLOR);
    var negated := InputState(-1, 0, APOS, '\0', f, EMPTY_COLOR);
    assert Step(chars, AtRest(), MINUS) == (minus, None);
    assert Step(chars, minus, c) == (typed, None);
    assert Step(chars, typed, APOS) == (negated, None);
    EndOfLineTurnsTo(chars, typed, Move(f, -1));
    EndOfLineTurnsTo(chars, negated, Move(f, -1));
    var nl := ['\n', '\n'];
    FeedKey(chars, minus, c, nl);
    FeedKey(chars, AtRest(), MINUS, [c] + nl);
    FeedKey(chars, typed, APOS, nl);
    FeedKey(chars, minus, c, [APOS] + nl);
    FeedKey(chars, AtRest(), MINUS, [c] + ([APOS] + nl));
    assert [MINUS] + ([c] + nl) == [MINUS, c, '\n', '\n'];
    assert [MINUS] + ([c] + ([APOS] + nl)) == [MINUS, c, APOS, '\n', '\n'];
    assert [] + [Move(f, -1)] == [Move(f, -1)];
  }

  /** Before any key, the last key and the last label are both NUL, so that an
      apostrophe typed first counts as following a label and negates the next face. The
      end of line the program feeds first leaves no room for this. */
  lemma LeadingApostropheNegates(chars: string, f: Face)
    requires ColorCharsOk(chars)
    ensures Feed(chars, InitialInput(), [APOS, chars[f], '\n', '\n']) == (AtRest(), [Move(f, -1)])
    ensures Feed(chars, AtRest(), [APOS, chars[f], '\n', '\n']) == (AtRest(), [Move(f, 1)])
  {
    CharToColorToChar(chars, f);
    var c := chars[f];
    assert APOS !in chars && '\n' !in chars;
    var negated := InputState(-1, 0, APOS, '\0', EMPTY_COLOR, EMPTY_COLOR);
    var typed := InputState(-1, 0, c, c, f, EMPTY_COLOR);
    assert Step(chars, InitialInput(), APOS) == (negated, None);
    assert Step(chars, negated, c) == (typed, None);
    EndOfLineTurnsTo(chars, typed, Move(f, -1));
    var ignored := InputState(1, 0, APOS, '\0', EMPTY_COLOR, EMPTY_COLOR);
    var plain := InputState(1, 0, c, c, f, EMPTY_COLOR);
    assert Step(chars, AtRest(), APOS) == (ignored, None);
    assert Step(chars, ignored, c) == (plain, None);
    EndOfLineTurnsTo(chars, plain, Move(f, 1));
    var nl := ['\n', '\n'];
    FeedKey(chars, negated, c, nl);
    FeedKey(chars, InitialInput(), APOS, [c] + nl);
    FeedKey(chars, ignored, c, nl);
    FeedKey(chars, AtRest(), APOS, [c] + nl);
    assert [APOS] + ([c] + nl) == [APOS, c, '\n', '\n'];
    assert [] + [Move(f, -1)] == [Move(f, -1)] && [] + [Move(f, 1)] == [Move(f, 1)];
  }

  /** In the input loop of the program, a label followed by the end of its line turns the
      face at once. */
  lemma MainTurnsAtEndOfLine(chars: string, f: Face)
    requires ColorCharsOk(chars)
    ensures Feed(chars, AtRest(), MainKeys([chars[f], '\n'])) == (AtRest(), [Move(f, 1)])
  {
    CharToColorToChar(chars, f);
    var c := chars[f];
    var s := [c, '\n'];
    assert s[1..] == ['\n'] && s[1..][1..] == [];
    assert MainKeys(['\n']) == ['\n', '\n'];
    assert MainKeys(s) == [c] + ['\n', '\n'];
    var typed := InputState(1, 0, c, c, f, EMPTY_COLOR);
    assert '\n' !in chars;
    assert Step(chars, AtRest(), c) == (typed, None);
    EndOfLineTurnsTo(chars, typed, Move(f, 1));
    FeedKey(chars, AtRest(), c, ['\n', '\n']);
    assert [] + [Move(f, 1)] == [Move(f, 1)];
  }

  const SAVE_FOUND_FACE: bv8 := 1
  const SAVE_PENDING_FACE: bv8 := 2
  const ROTATE_SAVED_FACE: bv8 := 4

  /** The reader of the program, with the labels it reads and the last move it found. */
  class InputReader {
    const chars: string
    var pendingSign: int
    var times: int
    var lastChr: char
    var lastFaceChr: char
    var pendingFace: int
    var savedFace: int
    var result: Move

    function State(): (st: InputState)
      reads this
      ensures st.pendingFace == pendingFace && st.savedFace == savedFace
    {
      InputState(pendingSign, times, lastChr, lastFaceChr, pendingFace, savedFace)
    }

    /** A reader for these labels, its fields zero as those of a static variable are. */
    constructor(chars: string)
      requires IsCString(chars)
      ensures this.chars == chars
      ensures State() == InputState(0, 0, '\0', '\0', 0, 0) && result == Move(0, 0)
    {
      this.chars := chars;
      pendingSign, times, lastChr, lastFaceChr := 0, 0, '\0', '\0';
      pendingFace, savedFace, result := 0, 0, Move(0, 0);
    }

    /** Forgets every key read so far. */
    method InitInputState()
      modifies this
      ensures State() == InitialInput() && result == old(result)
    {
      pendingFace, savedFace := EMPTY_COLOR, EMPTY_COLOR;
      lastChr, lastFaceChr := '\0', '\0';
      pendingSign := 1;
      times := 0;
    }

    /** Reads one key; true when it completes a move, which is then in result. */
    method ProcessInputChar(c: char) returns (hasResult: bool)
      requires IsCString(chars)
      modifies this
      ensures (State(), if hasResult then Some(result) else None) == Step(chars, old(State()), c)
      ensures !hasResult ==> result == old(result)
    {
      var action: bv8 := 0;
      hasResult := false;
      var f := CharToColor(chars, c);
      if f != EMPTY_COLOR {
        if pendingFace != EMPTY_COLOR {
          if savedFace != EMPTY_COLOR && savedFace != pendingFace {
            action := action | ROTATE_SAVED_FACE;
          }
          action := action | SAVE_PENDING_FACE;
        }
        action := action | SAVE_FOUND_FACE;
        lastFaceChr := c;
      } else {
        if c == APOS {
          if lastChr == lastFaceChr {
            pendingSign := -1;
          }
        } else if c == '\n' {
          if pendingFace != EMPTY_COLOR {
            if savedFace != EMPTY_COLOR && savedFace != pendingFace {
              action := action | ROTATE_SAVED_FACE;
            }
            action := action | SAVE_PENDING_FACE;
          } else if savedFace != EMPTY_COLOR {
            action := action | ROTATE_SAVED_FACE;
          }
        }
        lastFaceChr := '\0';
      }
      if action != 0 {
        if action & ROTATE_SAVED_FACE != 0 {
          result := Move(savedFace, times);
          hasResult := true;
          savedFace := EMPTY_COLOR;
          times := 0;
        }
        if action & SAVE_PENDING_FACE != 0 {
          if savedFace != pendingFace {
            savedFace := pendingFace;
          }
          pendingFace := EMPTY_COLOR;
          times := times + pendingSign;
          pendingSign := 1;
        }
        if action & SAVE_FOUND_FACE != 0 {
          pendingFace := f;
          if lastChr == MINUS {
            pendingSign := -1;
          }
        }
      }
      lastChr := c;
    }
  }
}
