/** The scanner of help documents (`scdoclex`): matching in a buffer that is refilled while a token is being read. */
module Scanners {
  import opened LongestMatch

  /** What `yy_get_next_buffer` reports. */
  datatype Refill = ContinueScan | LastMatch | EndOfFile

  datatype Result = Found(token: Token) | Terminated

  const READ_BUF_SIZE := 8192

  /** The length of the longest prefix of `w` below `n` that is accepted, with its state: the last accepting
      position. */
  ghost predicate Best(a: Automaton, s: nat, w: string, n: nat, k: int, st: nat)
    requires n <= |w| + 1
  {
    forall j: nat {:trigger Accepts(a, s, w[..j])} :: j < n && Accepts(a, s, w[..j]) != 0 ==>
      j <= k < n && st == Run(a, s, w[..k]) && a.accept(st) != 0
  }

  lemma BestNext(a: Automaton, s: nat, w: string, n: nat, k: int, st: nat, state: nat)
    requires n <= |w| && Best(a, s, w, n, k, st) && state == Run(a, s, w[..n])
    ensures if a.accept(state) != 0 then Best(a, s, w, n + 1, n, state) else Best(a, s, w, n + 1, k, st)
  {}

  lemma RunNext(a: Automaton, s: nat, w: string, n: nat)
    requires n < |w| && Run(a, s, w[..n]) != a.jam
    ensures Run(a, s, w[..n + 1]) == a.step(Run(a, s, w[..n]), w[n])
  {
    assert w[..n + 1][..n] == w[..n];
  }

  /** The automaton jammed inside the buffer: the last accepting position ends the longest token of the whole text. */
  lemma JammedIsLongest(a: Automaton, r: Rules, m: nat, w: string, rest: string, n: nat, k: int, st: nat)
    requires AutomatonOk(a, r) && AllOrdinary(w + rest) && 0 < n <= |w| && Run(a, r.startOf(m), w[..n]) == a.jam
    requires Best(a, r.startOf(m), w, n, k, st)
    ensures 0 < k < n && IsLongest(a, r.startOf(m), w + rest, k) && st == Run(a, r.startOf(m), w[..k])
      && (w + rest)[..k] == w[..k]
  {
    var s, t := r.startOf(m), w + rest;
    FirstAccepted(a, r, m, t);
    assert t[..1] == w[..1] && t[..n] == w[..n];
    assert Accepts(a, s, w[..n]) == 0;
    assert Accepts(a, s, w[..1]) != 0;
    forall j | k < j <= |t| ensures Accepts(a, s, t[..j]) == 0 {
      if j < n { assert t[..j] == w[..j]; } else { JamStays(a, s, t, n, j); }
    }
    assert t[..k] == w[..k];
  }

  /** All text has been read: the last accepting position, the end included, ends the longest token. */
  lemma EndIsLongest(a: Automaton, r: Rules, m: nat, w: string, k: int, st: nat)
    requires AutomatonOk(a, r) && AllOrdinary(w) && w != "" && Best(a, r.startOf(m), w, |w| + 1, k, st)
    ensures 0 < k && IsLongest(a, r.startOf(m), w, k) && st == Run(a, r.startOf(m), w[..k])
  {
    FirstAccepted(a, r, m, w);
    assert Accepts(a, r.startOf(m), w[..1]) != 0;
  }

  /** The automaton has read `n` characters of `w`; `k` and `st` are the last accepting position before and its
      state. */
  ghost predicate Reading(a: Automaton, s: nat, w: string, n: nat, state: nat, k: int, st: nat) {
    && n <= |w| && state == Run(a, s, w[..n]) && (Proper(a, state) || (state == a.jam && 0 < n))
    && Best(a, s, w, n, k, st)
  }

  lemma ReadingNext(a: Automaton, r: Rules, s: nat, w: string, n: nat, state: nat, k: int, st: nat)
    requires AutomatonOk(a, r) && Reading(a, s, w, n, state, k, st) && state != a.jam && n < |w| && Ordinary(w[n])
    ensures var (k', st') := if a.accept(state) != 0 then (n, state) else (k, st);
    Reading(a, s, w, n + 1, a.step(state, w[n]), k', st')
  {
    BestNext(a, s, w, n, k, st, state);
    RunNext(a, s, w, n);
    assert StepOk(a, state, w[n]);
  }

  lemma NotYetJammed(a: Automaton, s: nat, w: string, m: nat, k: nat)
    requires m <= k <= |w| && Run(a, s, w[..k]) != a.jam
    ensures Run(a, s, w[..m]) != a.jam
  {
    if Run(a, s, w[..m]) == a.jam { JamStays(a, s, w, m, k); }
  }

  lemma Lookup(t: Tables, s: nat, c: nat)
    requires TablesOk(t) && 0 < s < |t.base| && c < |t.meta|
    ensures LookupOk(t, s, c)
  {}

  // ----- running the automaton over the buffer

  /** The transition of the automaton, by following the chain of defaults. */
  method NextState(t: Tables, s: nat, c: char, ghost a: Automaton) returns (s': nat)
    requires Agrees(t, a) && 0 < s < |t.accept| && IsByte(c)
    ensures s' == a.step(s, c) && 0 < s' < |t.accept|
  {
    var state: nat, yyc: nat := s, t.ec[c as int];
    Lookup(t, state, yyc);
    while t.chk[t.base[state] + yyc] != state
      invariant 0 < state < |t.base| && yyc < |t.meta| && LookupOk(t, state, yyc)
      invariant Chase(t, state, yyc) == Chase(t, s, t.ec[c as int])
      decreases t.rank[state]
    {
      state := t.def[state];
      if state >= t.templates {
        yyc := t.meta[yyc];
      }
      Lookup(t, state, yyc);
    }
    s' := t.nxt[t.base[state] + yyc];
    assert StepAgrees(t, a, s, c);
  }

  /** One turn of the match loop: an accepting state is remembered, then a character is read. */
  method Turn(t: Tables, c: char, state0: nat, cp: nat, pos0: int, last0: nat, text: nat,
              ghost a: Automaton, ghost r: Rules, ghost s: nat, ghost w: string, ghost n: nat)
                  returns (state: nat, pos: int, last: nat)
    requires Agrees(t, a) && AutomatonOk(a, r) && state0 != a.jam && n < |w| && c == w[n] && Ordinary(c)
      && cp == text + n
    requires Reading(a, s, w, n, state0, pos0 - text, last0) && last0 < |t.accept|
    ensures Reading(a, s, w, n + 1, state, pos - text, last) && last < |t.accept|
  {
    ReadingNext(a, r, s, w, n, state0, pos0 - text, last0);
    pos, last := pos0, last0;
    assert AcceptAgrees(t, a, state0);
    if t.accept[state0] != 0 {
      last, pos := state0, cp;
    }
    state := NextState(t, state0, c, a);
  }

  /** How the run over `w` ended, with the last accepting position `k` and its state: it jammed after so many
      characters, or, when `jammed` is 0, it went on through the end-of-buffer characters. */
  ghost predicate RunEnded(a: Automaton, s: nat, w: string, jammed: nat, k: int, last: nat) {
    if jammed == 0 then k == |w| + 1 && last == a.eob && Proper(a, Run(a, s, w))
    else jammed <= |w| && Run(a, s, w[..jammed]) == a.jam && Best(a, s, w, jammed, k, last)
  }

  /** The match loop (`yy_match`), from a state that the text up to `cp0` led to. Either the automaton jams in the text
      held, or the run goes on through the end-of-buffer characters. */
  method Match(t: Tables, buf: string, text: nat, nChars: nat, cp0: nat, state0: nat, pos0: int, last0: nat,
               ghost a: Automaton, ghost r: Rules, ghost s: nat, ghost w: string)
                   returns (pos: int, last: nat, ghost jammed: nat)
    requires Agrees(t, a) && AutomatonOk(a, r) && text <= cp0 <= nChars && EndsAt(buf, nChars) && w == buf[text..nChars]
      && AllOrdinary(w)
    requires Reading(a, s, w, cp0 - text, state0, pos0 - text, last0) && Proper(a, state0) && last0 < |t.accept|
    ensures last < |t.accept| && RunEnded(a, s, w, jammed, pos - text, last)
  {
    var cp, state: nat := cp0, state0;
    ghost var n := cp0 - text;
    pos, last := pos0, last0;
    jammed := 0;
    while state != t.jam && cp < nChars
      invariant cp == text + n && cp <= nChars && Reading(a, s, w, n, state, pos - text, last) && last < |t.accept|
      decreases nChars - cp
    {
      state, pos, last := Turn(t, buf[cp], state, cp, pos, last, text, a, r, s, w, n);
      cp := cp + 1;
      n := n + 1;
    }
    if state == t.jam {
      jammed := n;
    } else {
      assert w[..n] == w;
      pos, last := RunOut(t, buf, nChars, state, pos, last, a, r);
    }
  }

  /** Two end-of-buffer characters follow the text. */
  predicate EndsAt(buf: string, n: nat) {
    n + 1 < |buf| && buf[n] == EOB && buf[n + 1] == EOB
  }

  /** The run through the end-of-buffer characters: the first leads to the state that says so, the second jams. */
  method RunOut(t: Tables, buf: string, cp0: nat, state0: nat, pos0: int, last0: nat, ghost a: Automaton,
                ghost r: Rules) returns (pos: int, last: nat)
    requires Agrees(t, a) && AutomatonOk(a, r) && EndsAt(buf, cp0) && Proper(a, state0)
    ensures pos == cp0 + 1 && last == a.eob
  {
    var cp := cp0;
    pos, last := pos0, last0;
    var state := NextState(t, state0, buf[cp], a);
    assert StateOk(a, state0) && AcceptAgrees(t, a, state);
    cp := cp + 1;
    if t.accept[state] != 0 {
      last, pos := state, cp;
    }
    state := NextState(t, state, buf[cp], a);
    assert state == t.jam;
  }

  /** `yy_get_previous_state`: runs over the text again, up to the place where reading stopped. */
  method PreviousState(t: Tables, start: nat, buf: string, text: nat, end: nat, pos0: int, last0: nat,
                       ghost a: Automaton, ghost r: Rules, ghost w: string) returns (state: nat, pos: int, last: nat)
    requires Agrees(t, a) && AutomatonOk(a, r) && Proper(a, start) && text <= end <= text + |w| <= |buf|
    requires w == buf[text..text + |w|] && AllOrdinary(w) && Run(a, start, w[..end - text]) != a.jam
      && last0 < |t.accept|
    ensures last < |t.accept|
    ensures Reading(a, start, w, end - text, state, pos - text, last) && Proper(a, state)
  {
    state, pos, last := start, pos0, last0;
    var cp := text;
    ghost var n := 0;
    while cp < end
      invariant cp == text + n && cp <= end && Reading(a, start, w, n, state, pos - text, last) && last < |t.accept|
    {
      NotYetJammed(a, start, w, n, end - text);
      state, pos, last := Turn(t, buf[cp], state, cp, pos, last, text, a, r, start, w, n);
      cp := cp + 1;
      n := n + 1;
    }
  }

  // ----- the buffer

  /** Moves the last characters of the buffer to its start. */
  method MoveToStart(buf0: string, text: nat, count: nat) returns (buf: string)
    requires text + count <= |buf0|
    ensures |buf| == |buf0| && buf[..count] == buf0[text..text + count]
  {
    buf := buf0;
    var i := 0;
    while i < count
      invariant 0 <= i <= count && |buf| == |buf0|
      invariant buf[..i] == buf0[text..text + i] && buf[text + i..] == buf0[text + i..]
    {
      ghost var was := buf;
      buf := buf[i := buf[text + i]];
      assert was[text + i] == was[text + i..][0] == buf0[text + i];
      assert buf[..i + 1] == was[..i] + [buf0[text + i]];
      assert buf[text + i + 1..] == was[text + i..][1..];
      i := i + 1;
    }
  }

  /** Doubles the buffer until there is room to read something behind `count` characters, with room for two
      end-of-buffer characters to spare. */
  method MakeRoom(buf0: string, bufSize0: nat, count: nat) returns (buf: string, bufSize: nat, room: nat)
    requires 0 < bufSize0 && bufSize0 + 2 <= |buf0| && count <= bufSize0
    ensures bufSize + 2 <= |buf| && count < bufSize && buf[..count] == buf0[..count] && 0 < room == bufSize - count - 1
    ensures bufSize0 <= bufSize
  {
    buf, bufSize := buf0, bufSize0;
    while bufSize - count - 1 <= 0
      invariant bufSize0 <= bufSize && bufSize + 2 <= |buf| && count <= bufSize && buf[..count] == buf0[..count]
      decreases 2 * count + 2 - bufSize
    {
      bufSize := bufSize * 2;
      buf := Grown(buf, bufSize + 2);
    }
    room := bufSize - count - 1;
  }

  /** `realloc`: what is there stays. */
  function Grown(buf: string, size: nat): (b: string)
    ensures size <= |b| && buf <= b
  {
    if |buf| >= size then buf else buf + seq(size - |buf|, _ => EOB)
  }

  /** `YY_INPUT`: reads at most `max` characters, at least one unless the input is at its end. */
  method Input(rest0: string, max: nat, cut: nat) returns (chunk: string, rest: string)
    requires 0 < max
    ensures rest0 == chunk + rest && |chunk| <= max && (chunk == "" <==> rest0 == "")
  {
    var n := if cut == 0 then 1 else cut;
    if n > max { n := max; }
    if n > |rest0| { n := |rest0|; }
    chunk, rest := rest0[..n], rest0[n..];
  }

  /** Writes a chunk behind `count` characters, and the two end-of-buffer characters behind it. */
  method Append(buf0: string, count: nat, chunk: string) returns (buf: string)
    requires count + |chunk| + 1 < |buf0|
    ensures |buf| == |buf0| && buf[..count + |chunk|] == buf0[..count] + chunk && EndsAt(buf, count + |chunk|)
  {
    var n := count + |chunk|;
    buf := buf0[..count] + chunk + [EOB, EOB] + buf0[n + 2..];
  }

  /** The buffer (`yy_ch_buf`, `yy_buf_size`, `yy_n_chars`, `yy_buffer_status`) with `yytext_ptr` and the last accepting
      position; behind it, the part of the input that has not been read, and the number of reads so far. */
  datatype Buffer = Buffer(chars: string, size: nat, nChars: nat, text: nat, pending: bool, lastState: nat,
    lastPos: int, rest: string, calls: nat)

  /** The buffer holds ordinary characters and two end-of-buffer characters after them. */
  ghost predicate BufferOk(b: Buffer, fill: bool, states: nat) {
    && 0 < b.size && b.size + 2 <= |b.chars| && b.text <= b.nChars <= b.size && EndsAt(b.chars, b.nChars)
    && AllOrdinary(b.chars[b.text..b.nChars]) && AllOrdinary(b.rest) && (b.pending || !fill ==> b.rest == "")
    && b.lastState < states
  }

  /** The text in the buffer that is still to be scanned. */
  ghost function Held(b: Buffer): string
    requires b.text <= b.nChars <= |b.chars|
  {
    b.chars[b.text..b.nChars]
  }

  /** All text that is still to be scanned. */
  ghost function Remaining(b: Buffer): string
    requires b.text <= b.nChars <= |b.chars|
  {
    Held(b) + b.rest
  }

  /** `yy_get_next_buffer`: moves the partial token to the start of the buffer and reads behind it. */
  method GetNextBuffer(b: Buffer, fill: bool, cuts: nat -> nat, ghost states: nat) returns (act: Refill, b': Buffer)
    requires BufferOk(b, fill, states)
    ensures BufferOk(b', fill, states) && Refilled(act, Held(b), b.rest, Held(b'), b'.rest)
    ensures b'.lastState == b.lastState && b'.lastPos == b.lastPos
  {
    if !fill {
      act := if b.nChars + 1 - b.text == 1 then EndOfFile else LastMatch;
      b' := b;
      return;
    }
    ghost var w := Held(b);
    var numberToMove := b.nChars - b.text;
    var chars := MoveToStart(b.chars, b.text, numberToMove);
    var size, chunk, rest := b.size, "", b.rest;
    if !b.pending {
      chars, size, chunk, rest := ReadMore(chars, size, numberToMove, rest, cuts(b.calls));
    }
    act := if chunk != "" then ContinueScan else if numberToMove == 0 then EndOfFile else LastMatch;
    OrdinaryParts(w, chunk, rest);
    Rejoined(w, chunk, rest);
    chars := Append(chars, numberToMove, chunk);
    var nChars := numberToMove + |chunk|;
    b' := Buffer(chars, size, nChars, 0, b.pending || act == LastMatch, b.lastState, b.lastPos, rest, b.calls + 1);
    assert Held(b') == w + chunk;
  }

  /** The action and the text up to `pos` make a token; scanning goes on behind it. */
  method Take(b: Buffer, pos: int, act: nat, ghost fill: bool, ghost states: nat) returns (tok: Token, b': Buffer)
    requires BufferOk(b, fill, states) && b.text <= pos <= b.nChars
    ensures BufferOk(b', fill, states) && tok == Token(act, Held(b)[..pos - b.text])
    ensures Remaining(b) == tok.text + Remaining(b')
  {
    ghost var w, k := Held(b), pos - b.text;
    tok := Token(act, b.chars[b.text..pos]);
    b' := b.(text := pos);
    assert tok.text == w[..k] && Held(b') == w[k..] && w == w[..k] + w[k..];
  }

  /** A run that jammed inside the buffer: the last accepting position ends the token. */
  method TakeMatched(t: Tables, b: Buffer, ghost a: Automaton, ghost r: Rules, ghost m: nat, ghost fill: bool,
                     ghost jammed: nat)
      returns (tok: Token, b': Buffer)
    requires Agrees(t, a) && AutomatonOk(a, r) && Matched(a, r.startOf(m), b, fill, |t.accept|, jammed)
    ensures BufferOk(b', fill, |t.accept|) && IsFirst(a, r, m, Remaining(b), tok, Remaining(b'))
  {
    ghost var w := Held(b);
    WholeOrdinary(w, b.rest);
    JammedIsLongest(a, r, m, w, b.rest, jammed, b.lastPos - b.text, b.lastState);
    assert AcceptAgrees(t, a, b.lastState);
    tok, b' := Take(b, b.lastPos, t.accept[b.lastState], fill, |t.accept|);
  }

  /** All has been read: the token ends where the text does, or, when that is not accepted, after a backing up. */
  method TakeLast(t: Tables, b: Buffer, state0: nat, ghost a: Automaton, ghost r: Rules, ghost m: nat, ghost fill: bool)
      returns (tok: Token, b': Buffer)
    requires Agrees(t, a) && AutomatonOk(a, r) && Standing(a, r.startOf(m), b, fill, |t.accept|, b.nChars, state0)
    requires b.rest == "" && Held(b) != ""
    ensures BufferOk(b', fill, |t.accept|) && IsFirst(a, r, m, Remaining(b), tok, Remaining(b'))
  {
    ghost var w := Held(b);
    var cp: int, state := b.nChars, state0;
    ghost var n, st := LastEnds(t, a, r, m, w, b.lastPos - b.text, b.lastState, state0);
    var act := t.accept[state];
    if act == 0 { // no token ends here
      cp, state := b.lastPos, b.lastState;
      act := t.accept[state];
    }
    assert w + b.rest == w;
    tok, b' := Take(b, cp, act, fill, |t.accept|);
  }

  /** The automaton stands in a proper state after the text held up to `cp`. */
  ghost predicate Standing(a: Automaton, s: nat, b: Buffer, fill: bool, states: nat, cp: nat, state: nat) {
    && BufferOk(b, fill, states) && b.text <= cp <= b.nChars && Proper(a, state)
    && Reading(a, s, Held(b), cp - b.text, state, b.lastPos - b.text, b.lastState)
  }

  /** The match loop came to the last accepting position inside the buffer, `jammed` characters after its start at
      most. */
  ghost predicate Matched(a: Automaton, s: nat, b: Buffer, fill: bool, states: nat, jammed: nat) {
    && BufferOk(b, fill, states) && 0 < jammed <= |Held(b)| && Run(a, s, Held(b)[..jammed]) == a.jam
    && Best(a, s, Held(b), jammed, b.lastPos - b.text, b.lastState)
  }

  /** The match loop came to the end of the buffer. */
  ghost predicate AtEnd(a: Automaton, s: nat, b: Buffer, fill: bool, states: nat) {
    BufferOk(b, fill, states) && b.lastPos == b.nChars + 1 && Proper(a, Run(a, s, Held(b)))
  }

  /** The match loop on the buffer; it reports whether a token was matched or the end of the buffer reached. */
  method Attempt(t: Tables, b: Buffer, cp: nat, state: nat, ghost a: Automaton, ghost r: Rules, ghost m: nat,
                 ghost fill: bool)
      returns (matched: bool, b': Buffer, ghost jammed: nat)
    requires Agrees(t, a) && AutomatonOk(a, r) && Standing(a, r.startOf(m), b, fill, |t.accept|, cp, state)
    ensures b' == b.(lastState := b'.lastState, lastPos := b'.lastPos)
    ensures matched ==> Matched(a, r.startOf(m), b', fill, |t.accept|, jammed)
    ensures !matched ==> AtEnd(a, r.startOf(m), b', fill, |t.accept|)
  {
    var pos, last;
    pos, last, jammed := Match(t, b.chars, b.text, b.nChars, cp, state, b.lastPos, b.lastState, a, r, r.startOf(m),
      Held(b));
    b' := b.(lastState := last, lastPos := pos);
    matched := t.accept[last] != t.endAct;
    Outcome(t, a, r, m, b, fill, jammed, pos, last, b');
  }

  lemma Outcome(t: Tables, a: Automaton, r: Rules, m: nat, b: Buffer, fill: bool, jammed: nat, pos: int, last: nat,
                b': Buffer)
    requires Agrees(t, a) && AutomatonOk(a, r) && BufferOk(b, fill, |t.accept|) && last < |t.accept|
    requires b' == b.(lastState := last, lastPos := pos)
      && RunEnded(a, r.startOf(m), Held(b), jammed, pos - b.text, last)
    ensures t.accept[last] != t.endAct ==> Matched(a, r.startOf(m), b', fill, |t.accept|, jammed)
    ensures t.accept[last] == t.endAct ==> AtEnd(a, r.startOf(m), b', fill, |t.accept|)
  {
    assert Held(b') == Held(b);
    ActionTells(t, a, r, m, Held(b), jammed, pos - b.text, last);
  }

  /** The text held is run over again, up to `cp`. */
  method RunAgain(t: Tables, r: Rules, b: Buffer, m: nat, cp: nat, ghost a: Automaton, ghost fill: bool)
      returns (state: nat, b': Buffer)
    requires Agrees(t, a) && AutomatonOk(a, r) && BufferOk(b, fill, |t.accept|) && b.text <= cp <= b.nChars
    requires Run(a, r.startOf(m), Held(b)[..cp - b.text]) != a.jam
    ensures Standing(a, r.startOf(m), b', fill, |t.accept|, cp, state)
      && b' == b.(lastState := b'.lastState, lastPos := b'.lastPos)
  {
    var pos, last;
    assert StartOk(a, r, m, EOB);
    state, pos, last := PreviousState(t, r.startOf(m), b.chars, b.text, cp, b.lastPos, b.lastState, a, r, Held(b));
    b' := b.(lastPos := pos, lastState := last);
  }

  /** The buffer has come to its end inside a token, or before one: it is refilled, and the text run over again. */
  method Continue(t: Tables, r: Rules, b: Buffer, m: nat, fill: bool, cuts: nat -> nat, ghost a: Automaton)
      returns (cp: nat, state: nat, refill: Refill, b': Buffer)
    requires Agrees(t, a) && AutomatonOk(a, r) && AtEnd(a, r.startOf(m), b, fill, |t.accept|)
    ensures BufferOk(b', fill, |t.accept|) && Remaining(b') == Remaining(b)
    ensures refill.EndOfFile? ==> Remaining(b') == ""
    ensures refill.ContinueScan? ==> |b'.rest| < |b.rest|
    ensures refill.LastMatch? ==> b'.rest == "" && Held(b') != "" && cp == b'.nChars
    ensures !refill.EndOfFile? ==> Standing(a, r.startOf(m), b', fill, |t.accept|, cp, state)
  {
    ghost var w := Held(b);
    var amount := b.lastPos - b.text - 1;
    refill, b' := GetNextBuffer(b, fill, cuts, |t.accept|);
    cp, state := b'.text, 0;
    if refill != EndOfFile {
      cp := if refill == ContinueScan then b'.text + amount else b'.nChars;
      assert Held(b')[..cp - b'.text] == w;
      state, b' := RunAgain(t, r, b', m, cp, a, fill);
    }
  }

  class Scanner {
    const t: Tables
    const r: Rules
    /** `yy_fill_buffer` */
    const fill: bool
    /** How many characters each read delivers, as far as there is room and text. */
    const cuts: nat -> nat
    ghost const a: Automaton

    var b: Buffer
    /** What decides the start state, `yy_start`. */
    var mode: nat

    ghost predicate Valid()
      reads this
    {
      Agrees(t, a) && AutomatonOk(a, r) && BufferOk(b, fill, |t.accept|)
    }

    /** All text that is still to be scanned. */
    ghost function Text(): string
      requires Valid()
      reads this
    {
      Remaining(b)
    }

    constructor (t: Tables, r: Rules, ghost a: Automaton, cuts: nat -> nat, size: nat, mode: nat, input: string)
      requires Agrees(t, a) && AutomatonOk(a, r) && 0 < size && AllOrdinary(input)
      ensures Valid() && Text() == input && this.mode == mode && this.r == r && this.a == a && this.t == t
    {
      this.t, this.r, this.a, this.cuts, this.fill, this.mode := t, r, a, cuts, true, mode;
      b := Buffer(seq(size + 2, _ => EOB), size, 0, 0, false, 0, 0, input, 0);
    }

    /** `scdoclex`: the next token, the longest there is in all the text still to be scanned, however the text is cut
        into reads; or the end, when there is none. */
    method NextToken() returns (res: Result)
      requires Valid()
      modifies this
      ensures Valid()
      ensures res.Terminated? <==> old(Text()) == ""
      ensures res.Terminated? ==> Text() == "" && mode == old(mode)
      ensures res.Found? ==>
        IsFirst(a, r, old(mode), old(Text()), res.token, Text())
          && mode == r.after(old(mode), res.token.act, res.token.text)
    {
      res, b := Scan(t, r, b, mode, fill, cuts, a);
      if res.Found? {
        mode := r.after(mode, res.token.act, res.token.text);
      }
    }

    /** The whole text is cut into its tokens. Neither the size of the buffer nor the reads have a say in it. */
    method ScanAll() returns (toks: seq<Token>)
      requires Valid()
      modifies this
      ensures Valid() && Text() == ""
      ensures toks == Tokens(a, r, old(mode), old(Text()))
    {
      toks := [];
      var more := true;
      while more
        invariant Valid() && toks + Tokens(a, r, mode, Text()) == Tokens(a, r, old(mode), old(Text()))
          && (!more ==> Text() == "")
        decreases more, |Text()|
      {
        ghost var m, whole := mode, Text();
        var res := NextToken();
        match res {
          case Terminated => more := false;
          case Found(tok) =>
            FirstUnfolds(a, r, m, whole, tok, Text());
            OneMoreToken(toks, tok, Tokens(a, r, mode, Text()));
            toks := toks + [tok];
        }
      }
      assert Tokens(a, r, mode, "") == [];
    }
  }

  /** The loop of `scdoclex` around matching and refilling. */
  method Scan(t: Tables, r: Rules, b: Buffer, m: nat, fill: bool, cuts: nat -> nat, ghost a: Automaton)
      returns (res: Result, b': Buffer)
    requires Agrees(t, a) && AutomatonOk(a, r) && BufferOk(b, fill, |t.accept|)
    ensures BufferOk(b', fill, |t.accept|)
    ensures res.Terminated? <==> Remaining(b) == ""
    ensures res.Terminated? ==> Remaining(b') == ""
    ensures res.Found? ==> IsFirst(a, r, m, Remaining(b), res.token, Remaining(b'))
  {
    assert StartOk(a, r, m, EOB);
    var cp, state: nat := b.text, r.startOf(m);
    b' := b;
    while true
      invariant Standing(a, r.startOf(m), b', fill, |t.accept|, cp, state) && Remaining(b') == Remaining(b)
      decreases |b'.rest|
    {
      var matched, tok, refill;
      ghost var jammed;
      matched, b', jammed := Attempt(t, b', cp, state, a, r, m, fill);
      if matched {
        tok, b' := TakeMatched(t, b', a, r, m, fill, jammed);
        res := Found(tok);
        return;
      }
      cp, state, refill, b' := Continue(t, r, b', m, fill, cuts, a);
      if refill == EndOfFile {
        res := Terminated;
        return;
      }
      if refill == LastMatch {
        tok, b' := TakeLast(t, b', state, a, r, m, fill);
        res := Found(tok);
        return;
      }
    }
  }

  /** Two scanners on the same text, with buffers of different sizes and reads cut differently, find the same tokens,
      and the tokens make up the text. */
  method SameTokens(t: Tables, r: Rules, ghost a: Automaton, cuts: nat -> nat, cuts': nat -> nat, size: nat, size': nat,
                    mode: nat, input: string)
      returns (toks: seq<Token>, toks': seq<Token>)
    requires Agrees(t, a) && AutomatonOk(a, r) && 0 < size && 0 < size' && AllOrdinary(input)
    ensures toks == toks' && Joined(toks) == input
  {
    var sc := new Scanner(t, r, a, cuts, size, mode, input);
    var sc' := new Scanner(t, r, a, cuts', size', mode, input);
    toks := sc.ScanAll();
    toks' := sc'.ScanAll();
    NothingLost(a, r, mode, input);
  }

  /** A first token is where the tokens of the text begin. */
  lemma FirstUnfolds(a: Automaton, r: Rules, m: nat, whole: string, tok: Token, rest: string)
    requires IsFirst(a, r, m, whole, tok, rest)
    ensures Tokens(a, r, m, whole) == [tok] + Tokens(a, r, r.after(m, tok.act, tok.text), rest) && |rest| < |whole|
  {
    var n := |tok.text|;
    LongestIs(a, r.startOf(m), whole, n);
    assert whole[..n] == tok.text && whole[n..] == rest;
  }

  /** Whether a token was matched can be read from the action. */
  lemma ActionTells(t: Tables, a: Automaton, r: Rules, m: nat, w: string, jammed: nat, k: int, last: nat)
    requires Agrees(t, a) && AutomatonOk(a, r) && AllOrdinary(w) && last < |t.accept|
    requires RunEnded(a, r.startOf(m), w, jammed, k, last)
    ensures t.accept[last] != t.endAct <==> jammed > 0
  {
    assert AcceptAgrees(t, a, last);
    MatchedIsNoEnd(a, r, m, w, jammed, k, last);
  }

  /** At the end of all text the token ends there, or at the last accepting position before. */
  lemma LastEnds(t: Tables, a: Automaton, r: Rules, m: nat, w: string, k: int, last: nat, state: nat)
      returns (n: int, st: nat)
    requires Agrees(t, a) && AutomatonOk(a, r) && AllOrdinary(w) && w != "" && last < |t.accept| && Proper(a, state)
    requires Reading(a, r.startOf(m), w, |w|, state, k, last)
    ensures n == (if t.accept[state] == 0 then k else |w|) && st == (if t.accept[state] == 0 then last else state)
    ensures 0 <= n <= |w| && st < |t.accept|
    ensures IsLongest(a, r.startOf(m), w, n) && t.accept[st] == Accepts(a, r.startOf(m), w[..n])
  {
    assert AcceptAgrees(t, a, state) && AcceptAgrees(t, a, last);
    BestNext(a, r.startOf(m), w, |w|, k, last, state);
    n, st := if t.accept[state] == 0 then k else |w|, if t.accept[state] == 0 then last else state;
    EndIsLongest(a, r, m, w, n, st);
  }

  lemma OneMoreToken(toks: seq<Token>, tok: Token, more: seq<Token>)
    ensures toks + ([tok] + more) == (toks + [tok]) + more
  {}

  lemma MatchedIsNoEnd(a: Automaton, r: Rules, m: nat, w: string, n: nat, k: int, st: nat)
    requires AutomatonOk(a, r) && AllOrdinary(w)
    ensures 0 < n <= |w| && Run(a, r.startOf(m), w[..n]) == a.jam && Best(a, r.startOf(m), w, n, k, st) ==>
      a.accept(st) != a.endAct
    ensures a.accept(a.eob) == a.endAct
  {
    if 0 < n <= |w| && Run(a, r.startOf(m), w[..n]) == a.jam && Best(a, r.startOf(m), w, n, k, st) {
      assert w + "" == w;
      JammedIsLongest(a, r, m, w, "", n, k, st);
      AcceptedIsNoEnd(a, r, m, w, k);
    }
  }

  lemma AcceptedIsNoEnd(a: Automaton, r: Rules, m: nat, w: string, k: nat)
    requires AutomatonOk(a, r) && AllOrdinary(w) && k <= |w| && Accepts(a, r.startOf(m), w[..k]) != 0
    ensures Accepts(a, r.startOf(m), w[..k]) != a.endAct
  {
    assert StartOk(a, r, m, EOB);
    RunProper(a, r, r.startOf(m), w[..k]);
    assert StateOk(a, Run(a, r.startOf(m), w[..k]));
  }

  lemma WholeOrdinary(w: string, rest: string)
    requires AllOrdinary(w) && AllOrdinary(rest)
    ensures AllOrdinary(w + rest)
  {}

  /** The first token of a text and what follows it. */
  ghost predicate IsFirst(a: Automaton, r: Rules, m: nat, whole: string, tok: Token, rest: string) {
    && whole == tok.text + rest && IsLongest(a, r.startOf(m), whole, |tok.text|)
    && tok.act == Accepts(a, r.startOf(m), tok.text)
  }

  /** What a refill does to the text in the buffer and the text not yet read: nothing is lost, and a partial token is
      kept. */
  ghost predicate Refilled(act: Refill, held: string, rest: string, held': string, rest': string) {
    && held' + rest' == held + rest && held <= held'
    && match act
       case ContinueScan => |rest'| < |rest|
       case LastMatch => rest' == "" && held' == held != ""
       case EndOfFile => rest' == "" && held' == held == ""
  }

  lemma Rejoined(w: string, chunk: string, rest: string)
    ensures (w + chunk) + rest == w + (chunk + rest)
  {}

  /** Makes room and reads. */
  method ReadMore(b0: string, size0: nat, count: nat, rest0: string, cut: nat)
      returns (b: string, size: nat, chunk: string, rest: string)
    requires 0 < size0 && size0 + 2 <= |b0| && count <= size0
    ensures size + 2 <= |b| && 0 < size && count + |chunk| <= size && b[..count] == b0[..count]
    ensures rest0 == chunk + rest && (chunk == "" <==> rest0 == "")
  {
    var room;
    b, size, room := MakeRoom(b0, size0, count);
    if room > READ_BUF_SIZE { room := READ_BUF_SIZE; }
    chunk, rest := Input(rest0, room, cut);
  }

  lemma OrdinaryParts(w: string, chunk: string, rest: string)
    ensures AllOrdinary(w) && AllOrdinary(chunk + rest) ==> AllOrdinary(w + chunk) && AllOrdinary(rest)
  {
    if AllOrdinary(chunk + rest) {
      forall i | 0 <= i < |chunk| ensures Ordinary(chunk[i]) { assert (chunk + rest)[i] == chunk[i]; }
      forall i | 0 <= i < |rest| ensures Ordinary(rest[i]) { assert (chunk + rest)[|chunk| + i] == rest[i]; }
    }
  }
}
