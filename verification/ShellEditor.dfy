/** The command line of the kernel shell (kernal/kernel/kshell.c, kernal/driver/dadio.c), against an
    editor that is just a text and a cursor; what the screen shows of it; and the tokens of the
    finished line. */
module ShellEditor {

  const MAX_COMMAND_SIZE := 50
  const MAX_TOKEN_SIZE := 25
  const COLUMNS := 80
  const CELLS := 2000

  const NUL := 0 as char
  const BACKSPACE := 8 as char
  const NEWLINE := 10 as char
  const LEFT := 17 as char
  const RIGHT := 18 as char
  const SPACE := ' '

  // ---------------------------------------------------------------- the abstract editor

  /** The text typed so far and the position of the cursor in it. */
  datatype Line = Line(text: string, at: nat)

  datatype Outcome = Editing(line: Line) | Entered(text: string) | Discarded

  /** One key in overwrite mode. */
  function Strike(l: Line, key: char): Line
    requires l.at <= |l.text|
  {
    if key == LEFT then (if l.at > 0 then l.(at := l.at - 1) else l)
    else if key == RIGHT then (if l.at < |l.text| then l.(at := l.at + 1) else l)
    else if key == BACKSPACE then
      (if l.at > 0 then Line(l.text[..l.at - 1] + l.text[l.at..], l.at - 1) else l)
    else Line(l.text[..l.at] + [key] + (if l.at < |l.text| then l.text[l.at + 1..] else []), l.at + 1)
  }

  /** Return ends the line; so does a character in the last of the fifty cells, and then the line
      is lost. */
  function Step(l: Line, key: char): Outcome
    requires l.at <= |l.text|
  {
    if key == NEWLINE then Entered(l.text)
    else if Strike(l, key).at == MAX_COMMAND_SIZE then Discarded
    else Editing(Strike(l, key))
  }

  /** How the loop leaves off: at an index with the line unfinished, for the parser, or with the
      line lost. */
  datatype Ending = Typing(i: int) | Parsed | Lost

  /** A key that is typed into the line. */
  predicate Plain(key: char) {
    key !in {NUL, BACKSPACE, NEWLINE, LEFT, RIGHT}
  }

  predicate Sensible(l: Line) {
    l.at <= |l.text| < MAX_COMMAND_SIZE && forall c :: c in l.text ==> Plain(c)
  }

  /** What a sequence of keys comes to; still editing if it has no end. */
  function Play(l: Line, keys: string): Outcome
    requires Sensible(l) && NUL !in keys
    decreases |keys|
  {
    if keys == [] then Editing(l)
    else
      match Step(l, keys[0])
      case Editing(next) => Play(next, keys[1..])
      case done => done
  }

  /** A line typed straight through reaches the parser as it is if and only if it is shorter than
      the buffer. */
  lemma {:induction false} TypedLine(done: string, rest: string)
    requires forall c :: c in done + rest ==> Plain(c)
    requires |done| < MAX_COMMAND_SIZE
    ensures forall c :: c in done ==> Plain(c)
    ensures NUL !in rest + [NEWLINE]
    ensures Play(Line(done, |done|), rest + [NEWLINE])
            == if |done + rest| < MAX_COMMAND_SIZE then Entered(done + rest) else Discarded
    decreases |rest|
  {
    assert forall c :: c in done ==> c in done + rest;
    assert forall c :: c in rest ==> c in done + rest;
    if rest == [] {
      assert done + rest == done;
    } else {
      var keys := rest + [NEWLINE];
      assert keys[1..] == rest[1..] + [NEWLINE];
      assert rest[0] in rest;
      assert Strike(Line(done, |done|), rest[0]) == Line(done + [rest[0]], |done| + 1) by {
        assert done[..|done|] == done;
      }
      if |done| + 1 < MAX_COMMAND_SIZE {
        assert done + [rest[0]] + rest[1..] == done + rest;
        TypedLine(done + [rest[0]], rest[1..]);
      }
    }
  }

  /** The same key n times. */
  function Repeat(key: char, n: nat): (s: string)
    ensures |s| == n && forall c :: c in s ==> c == key
  {
    seq(n, _ => key)
  }

  /** Text typed behind the text there is. */
  lemma {:induction false} TypedText(done: string, text: string, rest: string)
    requires (forall c :: c in done + text ==> Plain(c)) && NUL !in rest && |done + text| < MAX_COMMAND_SIZE
    ensures NUL !in text + rest && (forall c :: c in done ==> Plain(c))
    ensures Play(Line(done, |done|), text + rest) == Play(Line(done + text, |done + text|), rest)
    decreases |text|
  {
    assert forall c :: c in done || c in text ==> c in done + text;
    if text == [] {
      assert done + text == done && text + rest == rest;
    } else {
      assert text[0] in text && (text + rest)[0] == text[0] && (text + rest)[1..] == text[1..] + rest;
      assert done + [text[0]] + text[1..] == done + text;
      assert Strike(Line(done, |done|), text[0]) == Line(done + [text[0]], |done| + 1) by {
        assert done[..|done|] == done;
      }
      TypedText(done + [text[0]], text[1..], rest);
    }
  }

  /** The left key moves the cursor back by one, down to the start of the line. */
  lemma {:induction false} LeftKeys(l: Line, n: nat, rest: string)
    requires Sensible(l) && NUL !in rest
    ensures NUL !in Repeat(17 as char, n) + rest
    ensures Play(l, Repeat(17 as char, n) + rest) == Play(l.(at := if n < l.at then l.at - n else 0), rest)
    decreases n
  {
    if n == 0 {
      assert Repeat(17 as char, n) + rest == rest;
    } else {
      assert (Repeat(17 as char, n) + rest)[1..] == Repeat(17 as char, n - 1) + rest;
      var next := l.(at := if l.at > 0 then l.at - 1 else 0);
      assert Step(l, 17 as char) == Editing(next);
      LeftKeys(next, n - 1, rest);
    }
  }

  /** The right key moves it on by one, up to the end of the text. */
  lemma {:induction false} RightKeys(l: Line, n: nat, rest: string)
    requires Sensible(l) && NUL !in rest
    ensures NUL !in Repeat(18 as char, n) + rest
    ensures Play(l, Repeat(18 as char, n) + rest) == Play(l.(at := if l.at + n < |l.text| then l.at + n else |l.text|), rest)
    decreases n
  {
    if n == 0 {
      assert Repeat(18 as char, n) + rest == rest;
    } else {
      assert (Repeat(18 as char, n) + rest)[1..] == Repeat(18 as char, n - 1) + rest;
      var next := l.(at := if l.at < |l.text| then l.at + 1 else l.at);
      assert Step(l, 18 as char) == Editing(next);
      RightKeys(next, n - 1, rest);
    }
  }

  /** Where the cursor stands in a text of n characters after k left and j right keys. */
  function CursorAfter(n: nat, k: nat, j: nat): (at: nat)
    ensures at <= n
  {
    var left := if k < n then n - k else 0;
    if left + j < n then left + j else n
  }

  lemma TypedAndMoved(s: string, k: nat, j: nat, rest: string)
    requires (forall c :: c in s ==> Plain(c)) && |s| < MAX_COMMAND_SIZE && NUL !in rest
    ensures NUL !in s + (Repeat(17 as char, k) + (Repeat(18 as char, j) + rest))
    ensures Play(Line([], 0), s + (Repeat(17 as char, k) + (Repeat(18 as char, j) + rest)))
            == Play(Line(s, CursorAfter(|s|, k, j)), rest)
  {
    assert [] + s == s;
    var l := Line(s, |s|);
    RightKeys(l.(at := if k < l.at then l.at - k else 0), j, rest);
    LeftKeys(l, k, Repeat(18 as char, j) + rest);
    TypedText([], s, Repeat(17 as char, k) + (Repeat(18 as char, j) + rest));
  }

  /** A text, k left keys, j right keys and a character: the one under the cursor is replaced; behind
      the text the character is added, if there is room. */
  lemma EditedLine(s: string, k: nat, j: nat, c: char)
    requires (forall x :: x in s ==> Plain(x)) && |s| < MAX_COMMAND_SIZE && Plain(c)
    ensures NUL !in s + (Repeat(17 as char, k) + (Repeat(18 as char, j) + [c, 10 as char]))
    ensures var at := CursorAfter(|s|, k, j);
            Play(Line([], 0), s + (Repeat(17 as char, k) + (Repeat(18 as char, j) + [c, 10 as char])))
            == if at < |s| then Entered(s[at := c]) else if |s| + 1 < 50 then Entered(s + [c]) else Discarded
  {
    TypedAndMoved(s, k, j, [c, 10 as char]);
    TypedLast(Line(s, CursorAfter(|s|, k, j)), c);
  }

  lemma TypedLast(l: Line, c: char)
    requires Sensible(l) && Plain(c)
    ensures Play(l, [c, 10 as char])
            == if l.at < |l.text| then Entered(l.text[l.at := c])
               else if |l.text| + 1 < 50 then Entered(l.text + [c]) else Discarded
  {
    assert [c, 10 as char][1..] == [10 as char];
    if l.at < |l.text| {
      assert l.text[..l.at] + [c] + l.text[l.at + 1..] == l.text[l.at := c];
    } else {
      assert l.text[..l.at] + [c] + [] == l.text + [c];
    }
  }

  /** The same with a backspace: the character before the cursor goes. */
  lemma ErasedLine(s: string, k: nat, j: nat)
    requires (forall x :: x in s ==> Plain(x)) && |s| < MAX_COMMAND_SIZE
    ensures NUL !in s + (Repeat(17 as char, k) + (Repeat(18 as char, j) + [8 as char, 10 as char]))
    ensures var at := CursorAfter(|s|, k, j);
            Play(Line([], 0), s + (Repeat(17 as char, k) + (Repeat(18 as char, j) + [8 as char, 10 as char])))
            == Entered(if at > 0 then s[..at - 1] + s[at..] else s)
  {
    TypedAndMoved(s, k, j, [8 as char, 10 as char]);
    ErasedLast(Line(s, CursorAfter(|s|, k, j)));
  }

  lemma ErasedLast(l: Line)
    requires Sensible(l)
    ensures Play(l, [8 as char, 10 as char]) == Entered(if l.at > 0 then l.text[..l.at - 1] + l.text[l.at..] else l.text)
  {
    assert [8 as char, 10 as char][1..] == [10 as char];
  }

  // ---------------------------------------------------------------- the buffer

  function Zeros(n: nat): string {
    seq(n, _ => NUL)
  }

  /** The buffer is the text and zeros behind it. */
  predicate Holds(b: string, text: string) {
    |text| <= |b| && NUL !in text && b == text + Zeros(|b| - |text|)
  }

  /** Nothing follows the first zero. */
  predicate GapFree(b: string) {
    forall j, k :: 0 <= j < k < |b| && b[j] == NUL ==> b[k] == NUL
  }

  lemma HoldsIsGapFree(b: string, text: string)
    requires Holds(b, text)
    ensures GapFree(b)
  {
  }

  /** What flushing leaves: it stops at the first zero. */
  function Flushed(b: string): (r: string)
    ensures |r| == |b|
  {
    if b == [] || b[0] == NUL then b else [NUL] + Flushed(b[1..])
  }

  lemma {:induction false} FlushedIs(b: string, i: nat, r: string)
    requires |r| == |b| && i <= |b| && (i == |b| || b[i] == NUL)
    requires forall j :: 0 <= j < i ==> b[j] != NUL
    requires forall j :: 0 <= j < |b| ==> r[j] == if j < i then NUL else b[j]
    ensures Flushed(b) == r
  {
    if i > 0 {
      FlushedIs(b[1..], i - 1, r[1..]);
      assert r == [NUL] + r[1..];
    } else {
      assert b == r;
    }
  }

  predicate Blank(b: string) {
    forall k :: 0 <= k < |b| ==> b[k] == NUL
  }

  /** Stopping at the first zero clears the whole buffer if and only if it has no gap. */
  lemma {:induction false} FlushClearsIffGapFree(b: string)
    ensures Blank(Flushed(b)) <==> GapFree(b)
  {
    if b != [] && b[0] != NUL {
      var rest := b[1..];
      FlushClearsIffGapFree(rest);
      assert Blank(Flushed(b)) <==> Blank(Flushed(rest)) by {
        assert forall k :: 0 <= k < |rest| ==> Flushed(b)[k + 1] == Flushed(rest)[k];
      }
      assert GapFree(b) <==> GapFree(rest) by {
        assert forall k :: 0 <= k < |rest| ==> rest[k] == b[k + 1];
        assert forall k :: 0 < k < |b| ==> b[k] == rest[k - 1];
      }
    } else if b != [] {
      assert Flushed(b) == b;
      forall k | GapFree(b) && 0 <= k < |b|
        ensures b[k] == NUL
      {
        assert k == 0 || b[0] == NUL;
      }
    }
  }

  // ---------------------------------------------------------------- the screen

  /** Where monitor_puts moves the cursor for a newline. */
  function NextRow(cursor: nat): nat {
    var p := cursor - cursor % COLUMNS + COLUMNS;
    if p == CELLS then 0 else p
  }

  /** A newline goes to the start of the next of the 25 rows of 80 cells, and from the last to the first. */
  lemma NextRowIsBelow(cursor: nat)
    requires cursor < 25 * 80
    ensures NextRow(cursor) % 80 == 0 && NextRow(cursor) / 80 == (if cursor / 80 == 24 then 0 else cursor / 80 + 1)
  {
    var row := cursor / 80;
    assert cursor - cursor % 80 == row * 80;
  }

  /** From the prompt the screen shows the text; before it nothing has changed, and behind the
      text every cell is blank or as it was. */
  predicate CellShows(screen: string, before: string, prompt: nat, text: string, p: nat)
    requires p < |screen| == |before|
  {
    if p < prompt then screen[p] == before[p]
    else if p < prompt + |text| then screen[p] == text[p - prompt]
    else screen[p] == before[p] || screen[p] == NUL
  }

  predicate ScreenShows(screen: string, before: string, prompt: nat, text: string) {
    && |screen| == |before| == CELLS && prompt + MAX_COMMAND_SIZE <= CELLS
    && forall p :: 0 <= p < CELLS ==> CellShows(screen, before, prompt, text, p)
  }

  /** Buffer, index, screen and cursor all say the same line. */
  predicate Shows(b: string, i: int, screen: string, cursor: nat, before: string, prompt: nat, l: Line) {
    && Sensible(l) && |b| == MAX_COMMAND_SIZE && Holds(b, l.text)
    && i == l.at && cursor == prompt + l.at
    && ScreenShows(screen, before, prompt, l.text)
  }

  /** Typing over or behind the text. */
  lemma TypedShows(b: string, i: int, screen: string, cursor: nat, before: string, prompt: nat, l: Line, key: char)
    requires Shows(b, i, screen, cursor, before, prompt, l)
    requires Plain(key)
    ensures cursor < CELLS && 0 <= i < MAX_COMMAND_SIZE
    ensures var t := Strike(l, key).text;
            && Holds(b[i := key], t)
            && ScreenShows(screen[cursor := key], before, prompt, t)
  {
    var t := Strike(l, key).text;
    assert b[i := key] == t + Zeros(MAX_COMMAND_SIZE - |t|);
    var after := screen[cursor := key];
    forall p | 0 <= p < CELLS
      ensures CellShows(after, before, prompt, t, p)
    {
      assert CellShows(screen, before, prompt, l.text, p);
    }
  }

  /** Cell p of a row that starts at origin and shows the text b0 moved down over cells lo to k. */
  function Slid(row: string, b0: string, origin: nat, lo: nat, k: nat, p: nat): char
    requires p < |row| && k < |b0|
  {
    if origin + lo <= p < origin + k then b0[p - origin + 1] else row[p]
  }

  /** The buffer and the screen while the tail is being moved down over position lo: cells lo to k
      are done, in the buffer and on the screen. */
  predicate Sliding(b: string, screen: string, b0: string, s0: string, prompt: nat, lo: nat, k: nat) {
    && |b| == |b0| == MAX_COMMAND_SIZE && |screen| == |s0| == CELLS && prompt + MAX_COMMAND_SIZE <= CELLS
    && lo <= k < MAX_COMMAND_SIZE
    && (forall j :: 0 <= j < MAX_COMMAND_SIZE ==> b[j] == Slid(b0, b0, 0, lo, k, j))
    && forall p :: 0 <= p < CELLS ==> screen[p] == Slid(s0, b0, prompt, lo, k, p)
  }

  /** Backspace at the end of the text: the last character goes, on the screen too. */
  lemma ErasedLastShows(b: string, i: int, screen: string, cursor: nat, before: string, prompt: nat, l: Line)
    requires Shows(b, i, screen, cursor, before, prompt, l) && l.at == |l.text| > 0
    ensures Shows(b[i - 1 := NUL], i - 1, screen[cursor - 1 := NUL], cursor - 1, before, prompt, Strike(l, BACKSPACE))
  {
    var t := Strike(l, BACKSPACE).text;
    assert t == l.text[..|l.text| - 1];
    assert b[i - 1 := NUL] == t + Zeros(MAX_COMMAND_SIZE - |t|);
    var after := screen[cursor - 1 := NUL];
    forall p | 0 <= p < CELLS
      ensures CellShows(after, before, prompt, t, p)
    {
      assert CellShows(screen, before, prompt, l.text, p);
    }
  }

  /** Backspace inside the text: once the tail has been moved, one character is gone. */
  lemma ErasedInsideShows(b: string, screen: string, b0: string, s0: string, before: string, prompt: nat, l: Line)
    requires Shows(b0, l.at, s0, prompt + l.at, before, prompt, l) && 0 < l.at < |l.text|
    requires Sliding(b, screen, b0, s0[prompt + l.at - 1 := NUL], prompt, l.at - 1, |l.text|)
    ensures Shows(b, l.at - 1, screen, prompt + l.at - 1, before, prompt, Strike(l, BACKSPACE))
  {
    var t := Strike(l, BACKSPACE).text;
    forall j | 0 <= j < MAX_COMMAND_SIZE
      ensures b[j] == if j < |t| then t[j] else NUL
    {
      if l.at - 1 <= j < |l.text| {
        assert b[j] == b0[j + 1];
      }
    }
    assert b == t + Zeros(MAX_COMMAND_SIZE - |t|);
    forall p | 0 <= p < CELLS
      ensures CellShows(screen, before, prompt, t, p)
    {
      assert CellShows(s0, before, prompt, l.text, p);
    }
  }

  predicate TextThenNul(b: string, n: nat) {
    && n < |b| && b[n] == NUL
    && forall k :: 0 <= k < n ==> Plain(b[k])
  }

  // ---------------------------------------------------------------- tokens

  /** The text without its leading spaces. */
  function Skip(s: string): (r: string)
    ensures |r| <= |s|
  {
    if s != [] && s[0] == SPACE then Skip(s[1..]) else s
  }

  /** How far the first word reaches. */
  function WordLength(s: string): (n: nat)
    ensures n <= |s| && (forall k :: 0 <= k < n ==> s[k] != SPACE) && (n < |s| ==> s[n] == SPACE)
    ensures s != [] && s[0] != SPACE ==> n > 0
  {
    if s == [] || s[0] == SPACE then 0 else 1 + WordLength(s[1..])
  }

  function Tokens(s: string): seq<string>
    decreases |s|
  {
    var t := Skip(s);
    if t == [] then [] else
      SkipSkips(s);
      [t[..WordLength(t)]] + Tokens(t[WordLength(t)..])
  }

  lemma {:induction false} SkipSkips(s: string)
    ensures Skip(s) != [] ==> Skip(s)[0] != SPACE
  {
    if s != [] {
      SkipSkips(s[1..]);
    }
  }

  function Concat(words: seq<string>): string {
    if words == [] then [] else words[0] + Concat(words[1..])
  }

  function WithoutSpaces(s: string): string {
    if s == [] then [] else (if s[0] == SPACE then [] else [s[0]]) + WithoutSpaces(s[1..])
  }

  /** The tokens are words: not empty, without spaces, and together the text less its spaces. */
  lemma {:induction false} TokensAreWords(s: string)
    ensures forall w :: w in Tokens(s) ==> w != [] && SPACE !in w
    ensures Concat(Tokens(s)) == WithoutSpaces(s)
    decreases |s|
  {
    var t := Skip(s);
    SkipKeepsWords(s);
    if t != [] {
      SkipSkips(s);
      var n := WordLength(t);
      TokensAreWords(t[n..]);
      assert Tokens(s)[1..] == Tokens(t[n..]);
      WordThenRest(t, n);
    }
  }

  lemma {:induction false} SkipKeepsWords(s: string)
    ensures WithoutSpaces(Skip(s)) == WithoutSpaces(s)
  {
    if s != [] && s[0] == SPACE {
      SkipKeepsWords(s[1..]);
    }
  }

  lemma {:induction false} WordThenRest(s: string, n: nat)
    requires n <= |s| && forall k :: 0 <= k < n ==> s[k] != SPACE
    ensures WithoutSpaces(s) == s[..n] + WithoutSpaces(s[n..])
  {
    if n > 0 {
      WordThenRest(s[1..], n - 1);
      assert s[1..][n - 1..] == s[n..];
      assert s[..n] == [s[0]] + s[1..][..n - 1];
    } else {
      assert s[n..] == s;
    }
  }

  /** What extract_token leaves in the token buffer: token n cut to 25 characters, or nothing. */
  function TokenText(text: string, n: nat): string {
    if n >= |Tokens(text)| then []
    else if |Tokens(text)[n]| > MAX_TOKEN_SIZE then Tokens(text)[n][..MAX_TOKEN_SIZE]
    else Tokens(text)[n]
  }

  /** The first 25 characters of the token, all of it if it is shorter, and nothing if there is none. */
  lemma TokenCut(text: string, n: nat)
    ensures if n < |Tokens(text)| then
              TokenText(text, n) <= Tokens(text)[n] && |TokenText(text, n)| == (if |Tokens(text)[n]| < 25 then |Tokens(text)[n]| else 25)
            else TokenText(text, n) == []
  {
  }

  /** Passing the first token. */
  lemma TokensRest(s: string, p: nat, q: nat)
    requires p <= q <= |s| && Skip(s[p..]) == s[p..]
    requires (forall k :: p <= k < q ==> s[k] != SPACE) && (q < |s| ==> s[q] == SPACE) && p < |s|
    ensures q > p && Tokens(s[p..]) == [s[p..q]] + Tokens(Skip(s[q..]))
  {
    var t := s[p..];
    SkipSkips(t);
    assert t[0] == s[p];
    WordLengthIs(t, q - p);
    assert t[..q - p] == s[p..q] && t[q - p..] == s[q..];
    TokensOfSkip(s[q..]);
  }

  /** From p on come the tokens from the given one on, the first of them right at p. */
  predicate StartsToken(text: string, number: nat, p: nat)
    requires p <= |text|
  {
    Skip(text[p..]) == text[p..] && number <= |Tokens(text)| && Tokens(text)[number..] == Tokens(text[p..])
  }

  lemma NextToken(text: string, i: nat, p: nat, q: nat, next: nat)
    requires p <= q < |text| && StartsToken(text, i, p)
    requires (forall k :: p <= k < q ==> text[k] != SPACE) && text[q] == SPACE
    requires next <= |text| && text[next..] == Skip(text[q..])
    ensures StartsToken(text, i + 1, next)
  {
    TokensRest(text, p, q);
    SkipTwice(text[q..]);
    assert Tokens(text)[i..] == [text[p..q]] + Tokens(text[next..]);
    assert Tokens(text)[i + 1..] == Tokens(text)[i..][1..];
  }

  lemma LastToken(text: string, i: nat, p: nat)
    requires p <= |text| && StartsToken(text, i, p) && forall k :: p <= k < |text| ==> text[k] != SPACE
    ensures |Tokens(text)| <= i + 1
  {
    if p < |text| {
      TokensRest(text, p, |text|);
      assert text[|text|..] == [];
      assert Tokens(Skip(text[|text|..])) == [];
      assert |Tokens(text)[i..]| == 1;
    } else {
      assert text[p..] == [];
    }
  }

  /** A word, or as much of it as the token buffer holds, is the token it was found as. */
  lemma WordIsTokenText(text: string, from: nat, p: nat, number: nat)
    requires from <= p <= |text| && p - from <= MAX_TOKEN_SIZE
    requires StartsToken(text, number, from)
    requires forall k :: from <= k < p ==> text[k] != SPACE
    requires p - from == MAX_TOKEN_SIZE || p == |text| || text[p] == SPACE
    ensures TokenText(text, number) == text[from..p]
  {
    var t := text[from..];
    assert t[..p - from] == text[from..p];
    if t != [] {
      assert forall k :: 0 <= k < p - from ==> t[k] == text[from + k];
      CutWord(t, p - from);
      assert Tokens(t)[0] == Tokens(text)[number..][0] == t[..WordLength(t)];
    }
  }

  lemma CutWord(t: string, n: nat)
    requires n <= |t| && n <= MAX_TOKEN_SIZE && (forall k :: 0 <= k < n ==> t[k] != SPACE)
    requires n == MAX_TOKEN_SIZE || n == |t| || t[n] == SPACE
    ensures n == if WordLength(t) > MAX_TOKEN_SIZE then MAX_TOKEN_SIZE else WordLength(t)
  {
  }

  lemma {:induction false} WordLengthIs(s: string, n: nat)
    requires n <= |s| && (forall k :: 0 <= k < n ==> s[k] != SPACE) && (n < |s| ==> s[n] == SPACE)
    ensures WordLength(s) == n
  {
  }

  lemma TokensOfSkip(s: string)
    ensures Tokens(Skip(s)) == Tokens(s)
  {
    SkipTwice(s);
  }

  lemma {:induction false} SkipTwice(s: string)
    ensures Skip(Skip(s)) == Skip(s)
  {
    if s != [] {
      SkipTwice(s[1..]);
    }
  }

  lemma {:induction false} SkipIs(s: string, p: nat, q: nat)
    requires p <= q <= |s| && (forall k :: p <= k < q ==> s[k] == SPACE) && (q < |s| ==> s[q] != SPACE)
    ensures Skip(s[p..]) == s[q..]
    decreases q - p
  {
    if p < q {
      assert s[p..][1..] == s[p + 1..];
      SkipIs(s, p + 1, q);
    }
  }

  // ---------------------------------------------------------------- the shell

  class Shell {
    const buffer: array<char>
    const token: array<char>
    const screen: array<char>
    var cursor: nat

    ghost predicate Valid()
      reads this
    {
      && buffer.Length == MAX_COMMAND_SIZE && token.Length == MAX_TOKEN_SIZE && screen.Length == CELLS
      && buffer != token && buffer != screen && token != screen
    }

    constructor ()
      ensures Valid() && fresh(buffer) && fresh(token) && fresh(screen)
      ensures Blank(buffer[..]) && Blank(token[..]) && cursor == 0
    {
      buffer := new char[MAX_COMMAND_SIZE](_ => NUL);
      token := new char[MAX_TOKEN_SIZE](_ => NUL);
      screen := new char[CELLS](_ => SPACE);
      cursor := 0;
    }

    ghost predicate Reads(i: int, before: string, prompt: nat, l: Line)
      reads this, buffer, screen
    {
      Shows(buffer[..], i, screen[..], cursor, before, prompt, l)
    }

    /** putc, without the colours. */
    method Putc(input: char)
      requires Valid() && (input in {BACKSPACE, NEWLINE} || cursor < CELLS) && cursor <= CELLS
      modifies screen, this`cursor
      ensures screen[..] == if input == BACKSPACE && old(cursor) > 0 then old(screen[..])[old(cursor) - 1 := NUL]
                            else if input in {BACKSPACE, NEWLINE} then old(screen[..])
                            else old(screen[..])[old(cursor) := input]
      ensures cursor == if input == BACKSPACE then (if old(cursor) > 0 then old(cursor) - 1 else 0)
                        else if input == NEWLINE then NextRow(old(cursor))
                        else old(cursor) + 1
    {
      if input == BACKSPACE {
        if cursor != 0 {
          screen[cursor - 1] := NUL;
          cursor := cursor - 1;
        }
      } else if input == NEWLINE {
        cursor := NextRow(cursor);
      } else {
        screen[cursor] := input;
        cursor := cursor + 1;
      }
    }

    method FlushCommandBuffer()
      requires Valid()
      modifies buffer
      ensures buffer[..] == Flushed(old(buffer[..]))
    {
      ghost var b0 := buffer[..];
      var i := 0;
      while i < MAX_COMMAND_SIZE
        invariant 0 <= i <= MAX_COMMAND_SIZE
        invariant forall j :: 0 <= j < MAX_COMMAND_SIZE ==> buffer[j] == if j < i then NUL else b0[j]
        invariant forall j :: 0 <= j < i ==> b0[j] != NUL
      {
        if buffer[i] == NUL {
          break;
        }
        buffer[i] := NUL;
        i := i + 1;
      }
      FlushedIs(b0, i, buffer[..]);
    }

    /** The tail of a text of length n moves down over position lo, redrawn as it goes. */
    method SlideTail(lo: nat, ghost prompt: nat, ghost n: nat)
      requires Valid() && lo < n && TextThenNul(buffer[..], n) && cursor == prompt + lo && prompt + MAX_COMMAND_SIZE <= CELLS
      modifies buffer, screen, this`cursor
      ensures Sliding(buffer[..], screen[..], old(buffer[..]), old(screen[..]), prompt, lo, n) && cursor == old(cursor)
    {
      ghost var b0, s0 := buffer[..], screen[..];
      var k, pointer := lo, cursor;
      while buffer[k] != NUL
        invariant lo <= k <= n
        invariant cursor == prompt + k
        invariant Sliding(buffer[..], screen[..], b0, s0, prompt, lo, k)
        decreases n - k
      {
        assert buffer[..][k] == b0[k] && buffer[..][k + 1] == b0[k + 1];
        buffer[k] := buffer[k + 1];
        Putc(buffer[k]);
        k := k + 1;
      }
      assert buffer[..][k] == b0[k];
      cursor := pointer;
    }

    /** The backspace branch; next is the index the source leaves for the loop to increment. */
    method Erase(i: int, ghost before: string, ghost prompt: nat, ghost l: Line) returns (next: int)
      requires Valid() && Reads(i, before, prompt, l)
      modifies buffer, screen, this`cursor
      ensures Reads(next + 1, before, prompt, Strike(l, BACKSPACE))
    {
      next := i;
      if i > 0 {
        ghost var b0, s0 := buffer[..], screen[..];
        Putc(BACKSPACE);
        if buffer[i] != NUL {
          next := next - 1;
          SlideTail(next, prompt, |l.text|);
          ErasedInsideShows(buffer[..], screen[..], b0, s0, before, prompt, l);
        } else {
          ErasedLastShows(b0, i, s0, prompt + i, before, prompt, l);
          next := next - 1;
          buffer[next] := NUL;
        }
      }
      next := next - 1;
    }

    /** The arrow branches. */
    method MoveLeft(i: int, ghost before: string, ghost prompt: nat, ghost l: Line) returns (next: int)
      requires Valid() && Reads(i, before, prompt, l)
      modifies this`cursor
      ensures Reads(next + 1, before, prompt, Strike(l, LEFT))
    {
      if i != 0 {
        next := i - 2;
        cursor := cursor - 1;
      } else {
        next := i - 1;
      }
    }

    method MoveRight(i: int, ghost before: string, ghost prompt: nat, ghost l: Line) returns (next: int)
      requires Valid() && Reads(i, before, prompt, l)
      modifies this`cursor
      ensures Reads(next + 1, before, prompt, Strike(l, RIGHT))
    {
      if i == 0 && buffer[i] == NUL {
        return i - 1;
      }
      next := i;
      if buffer[i] != NUL {
        cursor := cursor + 1;
      } else {
        next := next - 1;
      }
    }

    /** The loop of kshell for one line, over the keys that arrive. */
    method EditLine(keys: string) returns (ending: Ending)
      requires Valid() && cursor + MAX_COMMAND_SIZE <= CELLS && GapFree(buffer[..]) && NUL !in keys
      modifies buffer, screen, this`cursor
      ensures match Play(Line("", 0), keys)
              case Editing(l) => ending == Typing(l.at) && Reads(l.at, old(screen[..]), old(cursor), l)
              case Entered(text) =>
                && ending == Parsed && Holds(buffer[..], text) && |text| < MAX_COMMAND_SIZE
                && ScreenShows(screen[..], old(screen[..]), old(cursor), text)
              case Discarded => ending == Lost
      ensures GapFree(buffer[..])
    {
      ghost var before, prompt := screen[..], cursor;
      FlushClearsIffGapFree(buffer[..]);
      FlushCommandBuffer();
      var i, n := 0, 0;
      ghost var l := Line("", 0);
      while i < MAX_COMMAND_SIZE && n < |keys|
        invariant 0 <= n <= |keys| && i <= MAX_COMMAND_SIZE
        invariant GapFree(buffer[..])
        invariant i < MAX_COMMAND_SIZE ==> Reads(i, before, prompt, l) && Play(l, keys[n..]) == Play(Line("", 0), keys)
        invariant i == MAX_COMMAND_SIZE ==> Play(Line("", 0), keys) == Discarded
        decreases |keys| - n
      {
        var input := keys[n];
        assert keys[n..][1..] == keys[n + 1..];
        n := n + 1;
        if input == LEFT {
          i := MoveLeft(i, before, prompt, l);
          l := Strike(l, input);
        } else if input == RIGHT {
          i := MoveRight(i, before, prompt, l);
          l := Strike(l, input);
        } else if input == BACKSPACE {
          i := Erase(i, before, prompt, l);
          l := Strike(l, input);
        } else if input == NEWLINE {
          return Parsed;
        } else {
          TypedShows(buffer[..], i, screen[..], cursor, before, prompt, l, input);
          buffer[i] := input;
          Putc(input);
          l := Strike(l, input);
        }
        HoldsIsGapFree(buffer[..], l.text);
        i := i + 1;
      }
      if i == MAX_COMMAND_SIZE {
        return Lost;
      }
      return Typing(i);
    }

    method FlushTokenBuffer()
      requires Valid()
      modifies token
      ensures token[..] == Flushed(old(token[..]))
    {
      ghost var b0 := token[..];
      var i := 0;
      while i < MAX_TOKEN_SIZE
        invariant 0 <= i <= MAX_TOKEN_SIZE
        invariant forall j :: 0 <= j < MAX_TOKEN_SIZE ==> token[j] == if j < i then NUL else b0[j]
        invariant forall j :: 0 <= j < i ==> b0[j] != NUL
      {
        if token[i] == NUL {
          break;
        }
        token[i] := NUL;
        i := i + 1;
      }
      FlushedIs(b0, i, token[..]);
    }

    method SkipSpaces(from: nat, ghost text: string) returns (p: nat)
      requires Valid() && Holds(buffer[..], text) && |text| < MAX_COMMAND_SIZE && from <= |text|
      ensures from <= p <= |text| && text[p..] == Skip(text[from..])
    {
      p := from;
      while buffer[p] == SPACE
        invariant from <= p <= |text|
        invariant forall k :: from <= k < p ==> text[k] == SPACE
        decreases |text| - p
      {
        assert buffer[..][p] == SPACE;
        p := p + 1;
      }
      assert p < |text| ==> buffer[..][p] == text[p];
      SkipIs(text, from, p);
    }

    /** Past the current word; ended if the line ends with it. */
    method SkipWord(from: nat, ghost text: string) returns (p: nat, ended: bool)
      requires Valid() && Holds(buffer[..], text) && |text| < MAX_COMMAND_SIZE && from <= |text|
      ensures from <= p <= |text| && (ended <==> p == |text|)
      ensures (forall k :: from <= k < p ==> text[k] != SPACE) && (p < |text| ==> text[p] == SPACE)
    {
      p := from;
      while buffer[p] != SPACE
        invariant from <= p <= |text|
        invariant forall k :: from <= k < p ==> text[k] != SPACE
        decreases |text| - p
      {
        assert buffer[..][p] == if p < |text| then text[p] else NUL;
        if buffer[p] == NUL {
          return p, true;
        }
        p := p + 1;
      }
      assert buffer[..][p] == if p < |text| then text[p] else NUL;
      ended := false;
    }

    /** The pointer walk of extract_token: to where the given token starts, if the line has it. */
    method FindToken(number: nat, ghost text: string) returns (p: nat, found: bool)
      requires Valid() && Holds(buffer[..], text) && |text| < MAX_COMMAND_SIZE
      ensures !found ==> number >= |Tokens(text)|
      ensures found ==> p <= |text| && StartsToken(text, number, p)
    {
      p := SkipSpaces(0, text);
      assert text[0..] == text;
      TokensOfSkip(text);
      SkipTwice(text);
      var i := 0;
      while i < number
        invariant 0 <= i <= number && p <= |text|
        invariant StartsToken(text, i, p)
      {
        var q, ended := SkipWord(p, text);
        if ended {
          LastToken(text, i, p);
          return p, false;
        }
        var next := SkipSpaces(q, text);
        NextToken(text, i, p, q, next);
        p, i := next, i + 1;
      }
      return p, true;
    }

    /** extract_token. */
    method ExtractToken(number: nat, ghost text: string)
      requires Valid() && Holds(buffer[..], text) && |text| < MAX_COMMAND_SIZE && GapFree(token[..])
      modifies token
      ensures Holds(token[..], TokenText(text, number))
    {
      FlushClearsIffGapFree(token[..]);
      FlushTokenBuffer();
      var p, found := FindToken(number, text);
      if !found {
        assert token[..] == [] + Zeros(MAX_TOKEN_SIZE);
        return;
      }
      var q := CopyWord(p, text);
      WordIsTokenText(text, p, q, number);
    }

    /** The copying loop: a word, up to the size of the token buffer. */
    method CopyWord(from: nat, ghost text: string) returns (p: nat)
      requires Valid() && Holds(buffer[..], text) && |text| < MAX_COMMAND_SIZE && from <= |text| && Blank(token[..])
      modifies token
      ensures from <= p <= |text| && p - from <= MAX_TOKEN_SIZE
      ensures token[..] == text[from..p] + Zeros(MAX_TOKEN_SIZE - (p - from))
      ensures forall k :: from <= k < p ==> text[k] != SPACE
      ensures p - from == MAX_TOKEN_SIZE || p == |text| || text[p] == SPACE
    {
      var i := 0;
      p := from;
      while i < MAX_TOKEN_SIZE
        invariant 0 <= i <= MAX_TOKEN_SIZE && p == from + i <= |text|
        invariant forall j :: 0 <= j < MAX_TOKEN_SIZE ==> token[j] == if j < i then text[from + j] else NUL
        invariant forall k :: from <= k < p ==> text[k] != SPACE
      {
        assert buffer[..][p] == if p < |text| then text[p] else NUL;
        if buffer[p] == NUL || buffer[p] == SPACE {
          break;
        }
        token[i] := buffer[p];
        p, i := p + 1, i + 1;
      }
      assert token[..] == text[from..p] + Zeros(MAX_TOKEN_SIZE - i);
    }

    /** string_compare: the second string is zero-terminated, and so is the first unless the
        second ends before it does, as with a full token buffer against a shorter command. */
    static method StringCompare(str1: string, str2: string) returns (same: bool)
      requires exists e :: 0 <= e < |str2| && str2[e] == NUL && (NUL in str1 || e < |str1|)
      ensures same <==> CString(str1) == CString(str2)
    {
      ghost var e :| 0 <= e < |str2| && str2[e] == NUL && (NUL in str1 || e < |str1|);
      var i := 0;
      while str1[i] != NUL
        invariant 0 <= i < |str1| && i <= e
        invariant NUL !in str1[..i] && str1[..i] == str2[..i]
        decreases |str1| - i
      {
        if str1[i] != str2[i] {
          CStringsAgreeIff(str1, str2, i);
          return false;
        }
        i := i + 1;
      }
      CStringsAgreeIff(str1, str2, i);
      return str2[i] == NUL;
    }
  }

  function CString(s: string): string {
    if s == [] || s[0] == NUL then [] else [s[0]] + CString(s[1..])
  }

  /** Two strings that agree for i characters and then differ or end. */
  lemma {:induction false} CStringsAgreeIff(s: string, t: string, i: nat)
    requires i < |s| && i < |t| && NUL !in s[..i] && s[..i] == t[..i] && (s[i] != t[i] || s[i] == NUL)
    ensures CString(s) == CString(t) <==> s[i] == t[i]
  {
    if i > 0 {
      assert s[0] == s[..i][0] && t[0] == t[..i][0];
      assert s[1..][..i - 1] == s[..i][1..] && t[1..][..i - 1] == t[..i][1..];
      CStringsAgreeIff(s[1..], t[1..], i - 1);
      assert CString(s)[1..] == CString(s[1..]) && CString(t)[1..] == CString(t[1..]);
    } else {
      assert s[0] != NUL ==> CString(s)[0] == s[0];
      assert t[0] != NUL ==> CString(t)[0] == t[0];
    }
  }
}
