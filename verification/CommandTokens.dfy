/** The command-line tokenizer shared by iadmin and igroupadmin (getInput): it
    cuts the input buffer into NUL-terminated tokens in place and records
    pointers to them. */
module CommandTokens {

  import opened Common

  /** A token slot: the literal "" or a pointer into the input buffer. */
  datatype Pointer = Empty | Into(index: nat)

  // --------------------------------------------------- what the tokens of a line are

  /** Finished tokens, and what is left over at the end of the text. */
  datatype Split = Split(done: seq<string>, last: string)

  predicate IsQuote(c: char) {
    c == '\'' || c == '"'
  }

  /** A token that runs to the next `stop`, with `begun` already read. */
  function Until(begun: string, s: string, stop: char): Split
    decreases |s|, 0
  {
    var k := Find(s, stop);
    if k == |s| then Split([], begun + s) else
      var rest := Words(s[k + 1..]);
      Split([begun + s[..k]] + rest.done, rest.last)
  }

  /** Tokens are separated by spaces; one that opens with a quote runs to the
      next such quote and may hold anything else. */
  function Words(s: string): Split
    decreases |s|, 1
  {
    if s == [] then Split([], "")
    else if s[0] == ' ' then Words(s[1..])
    else if IsQuote(s[0]) then Until("", s[1..], s[0])
    else Until([s[0]], s[1..], ' ')
  }

  /** The tokens of a buffer's text: what comes before the first newline, whose
      left-over text is a token too; without a newline the left-over is lost. */
  function Tokens(text: string): seq<string> {
    var k := Find(text, '\n');
    var w := Words(text[..k]);
    if k < |text| then w.done + [w.last] else w.done
  }

  // ------------------------------------------------------------- strings in a buffer

  function StringAt(buf: seq<char>, p: nat): string
    decreases |buf| - p
  {
    if p >= |buf| || buf[p] == NUL then "" else [buf[p]] + StringAt(buf, p + 1)
  }

  function Value(buf: seq<char>, slot: Pointer): string {
    if slot.Empty? then "" else StringAt(buf, slot.index)
  }

  ghost predicate Holds(buf: seq<char>, p: nat, t: string) {
    p + |t| < |buf| && buf[p..p + |t|] == t && buf[p + |t|] == NUL && NUL !in t
  }

  lemma {:induction false} HoldsValue(buf: seq<char>, p: nat, t: string)
    requires Holds(buf, p, t)
    ensures StringAt(buf, p) == t
    decreases |t|
  {
    if t == [] {
      assert buf[p] == NUL;
    } else {
      assert buf[p] == buf[p..p + |t|][0] == t[0];
      assert buf[p + 1..p + 1 + |t[1..]|] == buf[p..p + |t|][1..] == t[1..];
      HoldsValue(buf, p + 1, t[1..]);
    }
  }

  /** strlen */
  function Length(buf: seq<char>): nat
    requires NUL in buf
  {
    Find(buf, NUL)
  }

  // ------------------------------------------------------ the tokens still to come

  /** The character that ends a token in each state. */
  function Stop(flag: int): char {
    if flag == 2 then '"' else if flag == 3 then '\'' else ' '
  }

  /** What a tokenizer in state `flag` makes of `s`, having read `begun` of a token. */
  function Ahead(flag: int, begun: string, s: string, ended: bool): seq<string> {
    var w := if flag == 0 then Words(s) else Until(begun, s, Stop(flag));
    if ended then w.done + [w.last] else w.done
  }

  lemma AheadBetween(s: string, ended: bool)
    requires s != []
    ensures s[0] == '\'' ==> Ahead(0, "", s, ended) == Ahead(3, "", s[1..], ended)
    ensures s[0] == '"' ==> Ahead(0, "", s, ended) == Ahead(2, "", s[1..], ended)
    ensures s[0] == ' ' ==> Ahead(0, "", s, ended) == Ahead(0, "", s[1..], ended)
    ensures !IsQuote(s[0]) && s[0] != ' ' ==> Ahead(0, "", s, ended) == Ahead(1, [s[0]], s[1..], ended)
  {
  }

  lemma AheadInside(flag: int, begun: string, s: string, ended: bool)
    requires s != [] && 1 <= flag <= 3
    ensures s[0] == Stop(flag) ==> Ahead(flag, begun, s, ended) == [begun] + Ahead(0, "", s[1..], ended)
    ensures s[0] != Stop(flag) ==> Ahead(flag, begun, s, ended) == Ahead(flag, begun + [s[0]], s[1..], ended)
  {
    var k := Find(s, Stop(flag));
    if s[0] == Stop(flag) {
      assert s[..0] == "" && begun + "" == begun;
    } else {
      assert k == 1 + Find(s[1..], Stop(flag));
      assert begun + s == begun + [s[0]] + s[1..];
      assert begun + s[..k] == begun + [s[0]] + s[1..][..k - 1];
    }
  }

  // ---------------------------------------------------------------- the loop's record

  /** The first n slots point at the first n tokens, one after the other and all
      before position i; from i on the buffer is as it was. */
  ghost predicate Stored(buf: seq<char>, was: seq<char>, slots: seq<Pointer>, toks: seq<string>, n: nat, i: nat) {
    && |buf| == |was| && i <= |buf| && buf[i..] == was[i..]
    && n <= |slots| && n <= |toks|
    && (forall j | 0 <= j < n :: slots[j].Into? && Holds(buf, slots[j].index, toks[j]))
    && (forall j | 0 <= j < n :: slots[j].index + |toks[j]| < i)
    && (forall j, k | 0 <= j < k < n :: slots[j].index + |toks[j]| < slots[k].index)
  }

  /** Ending a token at i: earlier tokens are out of reach of the new NUL. */
  lemma StoreToken(buf: seq<char>, was: seq<char>, slots: seq<Pointer>, toks: seq<string>, n: nat, i: nat, start: nat)
    requires Stored(buf, was, slots, toks, n, i)
    requires n < |slots| && n < |toks| && start <= i < |buf|
    requires buf[start..i] == toks[n] && NUL !in toks[n]
    requires forall j | 0 <= j < n :: slots[j].index + |toks[j]| < start
    ensures Stored(buf[i := NUL], was, slots[n := Into(start)], toks, n + 1, i + 1)
  {
    var buf', slots' := buf[i := NUL], slots[n := Into(start)];
    assert buf'[i + 1..] == buf[i..][1..];
    forall j | 0 <= j < n
      ensures slots'[j].Into? && Holds(buf', slots'[j].index, toks[j])
    {
      var p, q := slots[j].index, slots[j].index + |toks[j]|;
      assert q < i && slots'[j] == slots[j];
      assert buf'[p..q] == buf[p..q];
    }
    assert buf'[start..i] == buf[start..i];
    assert slots'[n] == Into(start);
  }

  lemma Advance(buf: seq<char>, was: seq<char>, slots: seq<Pointer>, toks: seq<string>, n: nat, i: nat)
    requires Stored(buf, was, slots, toks, n, i) && i < |buf|
    ensures Stored(buf, was, slots, toks, n, i + 1)
  {
    assert buf[i + 1..] == buf[i..][1..] == was[i + 1..];
  }

  // ------------------------------------------------------------------- getInput

  /** What a call starts from: the buffer, the slots, and the tokens that the
      text before position `nl` stands for. */
  datatype Job = Job(was: seq<char>, initial: seq<Pointer>, max: nat, toks: seq<string>, nl: nat, ended: bool)

  /** The loop's whole state, tied to the tokens still to come. */
  ghost predicate Running(job: Job, buf: seq<char>, slots: seq<Pointer>, n: nat, i: nat, start: nat, flag: int) {
    && Stored(buf, job.was, slots, job.toks, n, i)
    && start <= i <= job.nl <= |buf| && n <= job.max <= |slots| == |job.initial|
    && 0 <= flag <= 3 && (flag == 0 ==> start == i)
    && NUL !in job.was[..job.nl]
    && buf[start..i] == job.was[start..i]
    && (forall j | 0 <= j < n :: slots[j].index + |job.toks[j]| < start)
    && Untouched(job, buf, slots, n)
    && job.toks[n..] == Ahead(flag, job.was[start..i], job.was[i..job.nl], job.ended)
  }

  ghost predicate Untouched(job: Job, buf: seq<char>, slots: seq<Pointer>, n: nat)
    requires job.max <= |slots| == |job.initial|
  {
    && (forall j | n <= j < job.max :: slots[j].Empty?)
    && slots[job.max..] == job.initial[job.max..]
    && |buf| == |job.was| && (forall j | 0 <= j < |buf| :: buf[j] == job.was[j] || buf[j] == NUL)
  }

  /** What getInput leaves behind: every slot below the limit reads as its token
      or as "", tokens lie apart from each other, no slot beyond the limit is
      written, and the buffer changes only by NULs. */
  ghost predicate Filled(job: Job, buf: seq<char>, slots: seq<Pointer>)
    requires job.max <= |slots| == |job.initial|
  {
    && (forall j | 0 <= j < job.max :: Value(buf, slots[j]) == if j < |job.toks| then job.toks[j] else "")
    && (forall j, k | 0 <= j < k < job.max && slots[j].Into? && slots[k].Into? ::
          slots[j].index + |Value(buf, slots[j])| < slots[k].index)
    && slots[job.max..] == job.initial[job.max..]
    && |buf| == |job.was| && (forall j | 0 <= j < |buf| :: buf[j] == job.was[j] || buf[j] == NUL)
  }

  lemma StoredIsFilled(job: Job, buf: seq<char>, slots: seq<Pointer>, n: nat, i: nat)
    requires n <= job.max <= |slots| == |job.initial|
    requires Stored(buf, job.was, slots, job.toks, n, i) && Untouched(job, buf, slots, n)
    requires n == job.max || n == |job.toks|
    ensures Filled(job, buf, slots)
  {
    forall j | 0 <= j < n
      ensures Value(buf, slots[j]) == job.toks[j]
    {
      HoldsValue(buf, slots[j].index, job.toks[j]);
    }
  }

  lemma UnendedIsFilled(job: Job, buf: seq<char>, slots: seq<Pointer>, n: nat, i: nat, start: nat, flag: int)
    requires Running(job, buf, slots, n, i, start, flag) && i == job.nl && !job.ended
    ensures Filled(job, buf, slots)
  {
    assert job.was[i..i] == "";
    assert job.toks[n..] == [];
    StoredIsFilled(job, buf, slots, n, i);
  }

  /** The newline ends the last token. */
  lemma AtNewline(job: Job, buf: seq<char>, slots: seq<Pointer>, n: nat, i: nat, start: nat, flag: int)
    requires Running(job, buf, slots, n, i, start, flag) && n < job.max
    requires i == job.nl < |buf| && job.ended
    ensures |job.toks| == n + 1
    ensures Filled(job, buf[i := NUL], slots[n := Into(start)])
  {
    var t := job.was[start..i];
    LastAhead(flag, t);
    assert job.was[i..i] == "" && (flag == 0 ==> t == "");
    assert job.toks[n..] == [t];
    assert job.toks[n] == job.toks[n..][0];
    InSlice(job.was, start, i, job.nl);
    StoreToken(buf, job.was, slots, job.toks, n, i, start);
    assert slots[n := Into(start)][job.max..] == slots[job.max..];
    StoredIsFilled(job, buf[i := NUL], slots[n := Into(start)], n + 1, i + 1);
  }

  lemma LastAhead(flag: int, t: string)
    requires flag == 0 ==> t == ""
    ensures Ahead(flag, t, "", true) == [t]
  {
    assert t + "" == t;
  }

  lemma InSlice(s: seq<char>, a: nat, b: nat, k: nat)
    requires a <= b <= k <= |s| && NUL !in s[..k]
    ensures NUL !in s[a..b]
  {
    assert s[a..b] == s[..k][a..b];
  }

  /** Between tokens, at position i: the state and the token start that follow. */
  predicate Opens(c: char, i: nat, flag: int, start: nat) {
    if c == '\'' then flag == 3 && start == i + 1
    else if c == '"' then flag == 2 && start == i + 1
    else if c == ' ' then flag == 0 && start == i + 1
    else flag == 1 && start == i
  }

  /** A character that ends no token. */
  lemma NextCharacter(job: Job, buf: seq<char>, slots: seq<Pointer>, n: nat, i: nat, start: nat, flag: int,
                      start': nat, flag': int)
    requires Running(job, buf, slots, n, i, start, flag) && i < job.nl
    requires flag != 0 ==> job.was[i] != Stop(flag) && flag' == flag && start' == start
    requires flag == 0 ==> Opens(job.was[i], i, flag', start')
    ensures Running(job, buf, slots, n, i + 1, start', flag')
  {
    var was := job.was;
    var s := was[i..job.nl];
    assert buf[i..][0] == was[i..][0];
    assert s[0] == was[i] && s[1..] == was[i + 1..job.nl];
    Advance(buf, was, slots, job.toks, n, i);
    AheadNext(was[start..i], s, flag, flag', job.ended);
    assert was[start'..i + 1] == if start' == i + 1 then "" else was[start..i] + [was[i]];
    assert buf[start'..i + 1] == if start' == i + 1 then "" else buf[start..i] + [buf[i]];
  }

  lemma AheadNext(begun: string, s: string, flag: int, flag': int, ended: bool)
    requires s != [] && 0 <= flag <= 3 && (flag == 0 ==> begun == "")
    requires flag != 0 ==> s[0] != Stop(flag) && flag' == flag
    requires flag == 0 ==> flag' == if s[0] == '\'' then 3 else if s[0] == '"' then 2 else if s[0] == ' ' then 0 else 1
    ensures Ahead(flag, begun, s, ended)
         == Ahead(flag', if flag == 0 && flag' != 1 then "" else begun + [s[0]], s[1..], ended)
  {
    if flag == 0 {
      assert begun + [s[0]] == [s[0]];
      AheadBetween(s, ended);
    } else {
      AheadInside(flag, begun, s, ended);
    }
  }

  /** A character that ends a token. */
  lemma EndToken(job: Job, buf: seq<char>, slots: seq<Pointer>, n: nat, i: nat, start: nat, flag: int)
    requires Running(job, buf, slots, n, i, start, flag) && n < job.max
    requires i < job.nl && flag != 0 && job.was[i] == Stop(flag)
    ensures Running(job, buf[i := NUL], slots[n := Into(start)], n + 1, i + 1, i + 1, 0)
  {
    var was, toks := job.was, job.toks;
    var s := was[i..job.nl];
    assert s[0] == was[i] && s[1..] == was[i + 1..job.nl];
    AheadInside(flag, was[start..i], s, job.ended);
    assert toks[n] == toks[n..][0] == was[start..i];
    assert toks[n + 1..] == toks[n..][1..];
    assert NUL !in was[start..i] by { InSlice(was, start, i, job.nl); }
    StoreToken(buf, was, slots, toks, n, i, start);
    assert slots[n := Into(start)][job.max..] == slots[job.max..];
    assert was[i + 1..i + 1] == "" && buf[i := NUL][i + 1..i + 1] == "";
  }

  /** The job a call with these arrays has to do. */
  function JobOf(was: seq<char>, initial: seq<Pointer>, max: nat): Job
    requires NUL in was
  {
    var text := was[..Length(was)];
    Job(was, initial, max, Tokens(text), Find(text, '\n'), '\n' in text)
  }

  /** The newline, or failing that the end of the text, is where the job says. */
  ghost predicate Placed(job: Job, lenstr: nat) {
    && job.nl <= lenstr < |job.was|
    && (job.ended <==> job.nl < lenstr)
    && (job.ended ==> job.was[job.nl] == '\n')
    && (forall k | 0 <= k < job.nl :: job.was[k] != '\n') && NUL !in job.was[..job.nl]
  }

  lemma JobIsPlaced(was: seq<char>, initial: seq<Pointer>, max: nat)
    requires NUL in was
    ensures Placed(JobOf(was, initial, max), Length(was))
  {
    var text := was[..Length(was)];
    var nl := Find(text, '\n');
    FindExists(was, NUL);
    FindExists(text, '\n');
    assert was[..nl] == text[..nl];
    assert forall k | 0 <= k < nl :: was[k] == text[..nl][k];
  }

  lemma Begin(was: seq<char>, initial: seq<Pointer>, max: nat, slots: seq<Pointer>)
    requires NUL in was && max <= |slots| == |initial|
    requires forall j | 0 <= j < max :: slots[j].Empty?
    requires slots[max..] == initial[max..]
    ensures Running(JobOf(was, initial, max), was, slots, 0, 0, 0, 0)
  {
    var job := JobOf(was, initial, max);
    JobIsPlaced(was, initial, max);
    assert was[0..job.nl] == was[..Length(was)][..job.nl];
    assert job.toks[0..] == job.toks;
  }

  /** cmdToken[0..maxTokens] = "" */
  method ClearSlots(cmdToken: array<Pointer>, maxTokens: nat)
    requires maxTokens <= cmdToken.Length
    modifies cmdToken
    ensures forall j | 0 <= j < maxTokens :: cmdToken[j].Empty?
    ensures cmdToken[maxTokens..] == old(cmdToken[maxTokens..])
  {
    var i := 0;
    while i < maxTokens
      invariant i <= maxTokens
      invariant forall j | 0 <= j < i :: cmdToken[j].Empty?
      invariant forall j | i <= j < cmdToken.Length :: cmdToken[j] == old(cmdToken[j])
    {
      cmdToken[i] := Empty;
      i := i + 1;
    }
  }

  /** ttybuf[i] = '\0'; cmdToken[n] = &ttybuf[start] */
  method EndAt(ttybuf: array<char>, cmdToken: array<Pointer>, n: nat, i: nat, start: nat)
    requires i < ttybuf.Length && n < cmdToken.Length
    modifies ttybuf, cmdToken
    ensures ttybuf[..] == old(ttybuf[..])[i := NUL]
    ensures cmdToken[..] == old(cmdToken[..])[n := Into(start)]
  {
    ttybuf[i] := NUL;
    cmdToken[n] := Into(start);
  }

  /** The loop looks at a character after it has finished `max` tokens. The last
      character it looks at is the newline, or else the end of the text. */
  predicate TooMany(text: string, max: nat) {
    var k := Find(text, '\n');
    text != "" && |Words(text[..if k < |text| then k else |text| - 1]).done| >= max
  }

  /** With a newline that is to have more tokens than slots. */
  lemma TooManyOnALine(text: string, max: nat)
    requires '\n' in text
    ensures TooMany(text, max) <==> |Tokens(text)| > max
  {
    FindExists(text, '\n');
  }

  /** The tokens finished before position `last`, counted from the loop's state. */
  ghost predicate Counted(was: seq<char>, last: nat, total: nat, n: nat, i: nat, start: nat, flag: int)
    requires start <= i <= last <= |was|
  {
    total == n + |Ahead(flag, was[start..i], was[i..last], false)|
  }

  lemma CountNext(was: seq<char>, last: nat, total: nat, n: nat, i: nat, start: nat, flag: int, start': nat, flag': int)
    requires start <= i < last <= |was| && 0 <= flag <= 3 && (flag == 0 ==> start == i)
    requires flag != 0 ==> was[i] != Stop(flag) && flag' == flag && start' == start
    requires flag == 0 ==> Opens(was[i], i, flag', start')
    requires Counted(was, last, total, n, i, start, flag)
    ensures Counted(was, last, total, n, i + 1, start', flag')
  {
    var s := was[i..last];
    assert s[0] == was[i] && s[1..] == was[i + 1..last];
    AheadNext(was[start..i], s, flag, flag', false);
    if flag == 0 && flag' != 1 {
      assert was[start'..i + 1] == "";
    } else {
      SliceGrows(was, start, i);
    }
  }

  lemma SliceGrows(s: seq<char>, a: nat, i: nat)
    requires a <= i < |s|
    ensures s[a..i + 1] == s[a..i] + [s[i]]
  {
  }

  lemma CountEnd(was: seq<char>, last: nat, total: nat, n: nat, i: nat, start: nat, flag: int)
    requires start <= i < last <= |was| && 1 <= flag <= 3 && was[i] == Stop(flag)
    requires Counted(was, last, total, n, i, start, flag)
    ensures Counted(was, last, total, n + 1, i + 1, i + 1, 0)
  {
    var s := was[i..last];
    assert s[0] == was[i] && s[1..] == was[i + 1..last];
    AheadInside(flag, was[start..i], s, false);
    assert was[i + 1..i + 1] == "";
  }

  lemma CountStops(was: seq<char>, last: nat, total: nat, n: nat, start: nat, flag: int)
    requires start <= last <= |was| && Counted(was, last, total, n, last, start, flag)
    ensures total == n
  {
    assert was[last..last] == "";
  }

  /** The loop's state with the count; once past the last character, the limit
      had not been reached when that was looked at. */
  ghost predicate Going(job: Job, last: int, total: nat, buf: seq<char>, slots: seq<Pointer>, n: nat, i: nat,
                        start: nat, flag: int) {
    && Running(job, buf, slots, n, i, start, flag) && last < |job.was|
    && if i <= last then Counted(job.was, last, total, n, i, start, flag) else last >= 0 ==> total < job.max
  }

  lemma GoesOn(job: Job, last: int, total: nat, buf: seq<char>, slots: seq<Pointer>, n: nat, i: nat, start: nat,
               flag: int, start': nat, flag': int)
    requires Going(job, last, total, buf, slots, n, i, start, flag) && i < job.nl && i <= last && n < job.max
    requires flag != 0 ==> job.was[i] != Stop(flag) && flag' == flag && start' == start
    requires flag == 0 ==> Opens(job.was[i], i, flag', start')
    ensures Going(job, last, total, buf, slots, n, i + 1, start', flag')
  {
    NextCharacter(job, buf, slots, n, i, start, flag, start', flag');
    if i < last {
      CountNext(job.was, last, total, n, i, start, flag, start', flag');
    } else {
      CountStops(job.was, last, total, n, start, flag);
    }
  }

  lemma GoesToNext(job: Job, last: int, total: nat, buf: seq<char>, slots: seq<Pointer>, n: nat, i: nat, start: nat,
                   flag: int)
    requires Going(job, last, total, buf, slots, n, i, start, flag) && i < job.nl && i <= last && n < job.max
    requires flag != 0 && job.was[i] == Stop(flag)
    ensures Going(job, last, total, buf[i := NUL], slots[n := Into(start)], n + 1, i + 1, i + 1, 0)
  {
    EndToken(job, buf, slots, n, i, start, flag);
    if i < last {
      CountEnd(job.was, last, total, n, i, start, flag);
    } else {
      CountStops(job.was, last, total, n, start, flag);
    }
  }

  lemma AsItWas(job: Job, buf: seq<char>, slots: seq<Pointer>, n: nat, i: nat, start: nat, flag: int)
    requires Running(job, buf, slots, n, i, start, flag) && i < |job.was|
    ensures |buf| == |job.was| && buf[i] == job.was[i]
  {
    DropOne(buf, i);
    DropOne(job.was, i);
  }

  lemma StopsWhenFull(job: Job, last: int, total: nat, buf: seq<char>, slots: seq<Pointer>, n: nat, i: nat, start: nat,
                      flag: int)
    requires Going(job, last, total, buf, slots, n, i, start, flag) && i <= last && n >= job.max
    ensures Filled(job, buf, slots) && total >= job.max
  {
    StoredIsFilled(job, buf, slots, n, i);
  }

  lemma StopsAtNewline(job: Job, last: int, total: nat, buf: seq<char>, slots: seq<Pointer>, n: nat, i: nat, start: nat,
                       flag: int)
    requires Going(job, last, total, buf, slots, n, i, start, flag) && i == last == job.nl < |buf| && job.ended
    requires n < job.max
    ensures Filled(job, buf[i := NUL], slots[n := Into(start)]) && total < job.max
  {
    AtNewline(job, buf, slots, n, i, start, flag);
    CountStops(job.was, last, total, n, start, flag);
  }

  /** Between tokens: what the next character makes of the state. */
  method Open(c: char, cpTokenStart: nat) returns (tokenFlag: int, start: nat)
    ensures Opens(c, cpTokenStart, tokenFlag, start)
  {
    tokenFlag, start := 0, cpTokenStart;
    if c == '\'' {
      tokenFlag := 3;
      start := start + 1;
    } else if c == '"' {
      tokenFlag := 2;
      start := start + 1;
    } else if c == ' ' {
      start := start + 1;
    } else {
      tokenFlag := 1;
    }
  }

  /** The loop's body for a character that is not the newline. */
  method Take(ttybuf: array<char>, cmdToken: array<Pointer>, n: nat, i: nat, start: nat, flag: int,
              ghost job: Job, ghost last: int, ghost total: nat)
    returns (nTokens: nat, cpTokenStart: nat, tokenFlag: int)
    requires Going(job, last, total, ttybuf[..], cmdToken[..], n, i, start, flag)
    requires i < job.nl && i <= last && n < job.max && ttybuf[i] == job.was[i]
    modifies ttybuf, cmdToken
    ensures Going(job, last, total, ttybuf[..], cmdToken[..], nTokens, i + 1, cpTokenStart, tokenFlag)
  {
    ghost var buf, slots := ttybuf[..], cmdToken[..];
    nTokens, cpTokenStart, tokenFlag := n, start, flag;
    if flag == 0 {
      tokenFlag, cpTokenStart := Open(ttybuf[i], start);
      GoesOn(job, last, total, buf, slots, n, i, start, flag, cpTokenStart, tokenFlag);
    } else if ttybuf[i] == Stop(flag) {  // states 1, 2 and 3 differ only in this character
      GoesToNext(job, last, total, buf, slots, n, i, start, flag);
      EndAt(ttybuf, cmdToken, n, i, start);
      nTokens := n + 1;
      cpTokenStart := i + 1;
      tokenFlag := 0;
    } else {
      GoesOn(job, last, total, buf, slots, n, i, start, flag, start, flag);
    }
  }

  /** The character loop; `last` is the last position it looks at, and `total`
      the number of tokens finished before that. */
  method Cut(ttybuf: array<char>, cmdToken: array<Pointer>, maxTokens: nat, lenstr: nat, ghost job: Job,
             ghost last: int, ghost total: nat)
    returns (tooMany: bool)
    requires job.was == ttybuf[..] && job.max == maxTokens && Placed(job, lenstr)
    requires last == if job.ended then job.nl else lenstr - 1
    requires Going(job, last, total, ttybuf[..], cmdToken[..], 0, 0, 0, 0)
    modifies ttybuf, cmdToken
    ensures maxTokens <= cmdToken.Length == |job.initial| && Filled(job, ttybuf[..], cmdToken[..])
    ensures tooMany <==> last >= 0 && total >= maxTokens
  {
    var cpTokenStart: nat, nTokens: nat, tokenFlag: int := 0, 0, 0;
    var i: nat := 0;
    while i < lenstr
      invariant Going(job, last, total, ttybuf[..], cmdToken[..], nTokens, i, cpTokenStart, tokenFlag)
    {
      ghost var buf, slots := ttybuf[..], cmdToken[..];
      AsItWas(job, buf, slots, nTokens, i, cpTokenStart, tokenFlag);
      if nTokens >= maxTokens {
        StopsWhenFull(job, last, total, buf, slots, nTokens, i, cpTokenStart, tokenFlag);
        return true;
      }
      if ttybuf[i] == '\n' {
        StopsAtNewline(job, last, total, buf, slots, nTokens, i, cpTokenStart, tokenFlag);
        EndAt(ttybuf, cmdToken, nTokens, i, cpTokenStart);
        return false;
      }
      nTokens, cpTokenStart, tokenFlag := Take(ttybuf, cmdToken, nTokens, i, cpTokenStart, tokenFlag, job, last, total);
      i := i + 1;
    }
    UnendedIsFilled(job, ttybuf[..], cmdToken[..], nTokens, i, cpTokenStart, tokenFlag);
    return false;
  }

  lemma StartsCounting(was: seq<char>, last: nat)
    requires last <= |was|
    ensures Counted(was, last, |Words(was[..last]).done|, 0, 0, 0, 0)
  {
    assert was[0..last] == was[..last];
  }

  /** getInput after the line has been read into the buffer. */
  method GetInput(ttybuf: array<char>, cmdToken: array<Pointer>, maxTokens: nat) returns (tooMany: bool)
    requires NUL in ttybuf[..] && maxTokens <= cmdToken.Length
    modifies ttybuf, cmdToken
    ensures Filled(JobOf(old(ttybuf[..]), old(cmdToken[..]), maxTokens), ttybuf[..], cmdToken[..])
    ensures tooMany <==> TooMany(old(ttybuf[..])[..Length(old(ttybuf[..]))], maxTokens)
  {
    ghost var job := JobOf(ttybuf[..], cmdToken[..], maxTokens);
    JobIsPlaced(ttybuf[..], cmdToken[..], maxTokens);
    var lenstr := Length(ttybuf[..]);
    ClearSlots(cmdToken, maxTokens);
    Begin(job.was, job.initial, maxTokens, cmdToken[..]);
    ghost var last := lenstr as int - 1;
    if job.ended { last := job.nl; }
    ghost var total := if last >= 0 then |Words(job.was[..last]).done| else 0;
    if last >= 0 { StartsCounting(job.was, last); }
    tooMany := Cut(ttybuf, cmdToken, maxTokens, lenstr, job, last, total);
    LastLooked(job.was, lenstr, last);
  }

  lemma LastLooked(was: seq<char>, lenstr: nat, last: int)
    requires lenstr <= |was|
    requires var text := was[..lenstr]; last == if '\n' in text then Find(text, '\n') else lenstr - 1
    ensures last < lenstr
    ensures var text := was[..lenstr];
            forall max: nat :: TooMany(text, max) <==> last >= 0 && |Words(was[..last]).done| >= max
  {
    var text := was[..lenstr];
    FindExists(text, '\n');
    if last >= 0 { assert text[..last] == was[..last]; }
  }

  // ------------------------------------------------------------------ quoting

  /** How a user may write one token. */
  datatype Written = Bare(text: string) | Quoted(text: string, quote: char)

  predicate Legal(w: Written) {
    match w
    case Bare(t) => t != [] && !IsQuote(t[0]) && ' ' !in t
    case Quoted(t, q) => IsQuote(q) && q !in t
  }

  function Form(w: Written): string {
    match w
    case Bare(t) => t
    case Quoted(t, q) => [q] + t + [q]
  }

  function Texts(ws: seq<Written>): (r: seq<string>)
    ensures |r| == |ws|
  {
    if ws == [] then [] else [ws[0].text] + Texts(ws[1..])
  }

  /** The written tokens with one space between each two. */
  function Joined(ws: seq<Written>): string {
    if ws == [] then ""
    else if |ws| == 1 then Form(ws[0])
    else Form(ws[0]) + " " + Joined(ws[1..])
  }

  lemma UntilStop(begun: string, t: string, stop: char, rest: string)
    requires stop !in t
    ensures Until(begun, t + [stop] + rest, stop) == Split([begun + t] + Words(rest).done, Words(rest).last)
  {
    var s := t + [stop] + rest;
    FindFirst(t, stop, rest);
    assert s[..|t|] == t && s[|t| + 1..] == rest;
  }

  /** A written token, a space and more text: the token comes off the front. */
  lemma WordsOfForm(w: Written, rest: string)
    requires Legal(w)
    ensures Words(Form(w) + " " + rest) == Split([w.text] + Words(rest).done, Words(rest).last)
  {
    var s := Form(w) + " " + rest;
    match w
    case Bare(t) =>
      assert s[1..] == t[1..] + [' '] + rest;
      UntilStop([t[0]], t[1..], ' ', rest);
      assert [t[0]] + t[1..] == t;
    case Quoted(t, q) =>
      var more := " " + rest;
      assert s[1..] == t + [q] + more;
      UntilStop("", t, q, more);
      assert "" + t == t && more[1..] == rest;
  }

  /** At the end of the line a bare token is left over; a quoted one is finished
      and leaves nothing over. */
  lemma WordsOfLast(w: Written)
    requires Legal(w)
    ensures Words(Form(w)) == if w.Bare? then Split([], w.text) else Split([w.text], "")
  {
    match w
    case Bare(t) =>
      FindNone(t[1..], ' ');
      assert [t[0]] + t[1..] == t;
    case Quoted(t, q) =>
      assert Form(w)[1..] == t + [q] + "";
      UntilStop("", t, q, "");
      assert "" + t == t && [t] + [] == [t];
  }

  function Ending(ws: seq<Written>): seq<string> {
    if ws != [] && ws[|ws| - 1].Bare? then [] else [""]
  }

  lemma {:induction false} WordsOfJoined(ws: seq<Written>)
    requires forall i | 0 <= i < |ws| :: Legal(ws[i])
    ensures var w := Words(Joined(ws)); w.done + [w.last] == Texts(ws) + Ending(ws)
  {
    if |ws| == 1 {
      WordsOfLast(ws[0]);
      assert Texts(ws) == [ws[0].text] + Texts(ws[1..]) == [ws[0].text];
    } else if |ws| > 1 {
      WordsOfForm(ws[0], Joined(ws[1..]));
      WordsOfJoined(ws[1..]);
      var r := Words(Joined(ws[1..]));
      assert [ws[0].text] + r.done + [r.last] == [ws[0].text] + (r.done + [r.last]);
      assert Ending(ws) == Ending(ws[1..]);
      assert [ws[0].text] + (Texts(ws[1..]) + Ending(ws)) == Texts(ws) + Ending(ws);
    }
  }

  /** Any list of tokens, each written bare or in a quote character it does not
      contain, is tokenized back to itself, in order. */
  lemma QuotingRoundTrip(ws: seq<Written>)
    requires forall i | 0 <= i < |ws| :: Legal(ws[i])
    requires '\n' !in Joined(ws)
    ensures Tokens(Joined(ws) + "\n") == Texts(ws) + Ending(ws)
  {
    var s := Joined(ws);
    var line := s + "\n";
    assert line == s + ['\n'] + "";
    FindFirst(s, '\n', "");
    assert line[..|s|] == s;
    WordsOfJoined(ws);
  }

  lemma {:induction false} TextAt(ws: seq<Written>, j: nat)
    requires j < |ws|
    ensures Texts(ws)[j] == ws[j].text
  {
    if j > 0 { TextAt(ws[1..], j - 1); }
  }

  lemma JobOfLine(line: string, pad: string, initial: seq<Pointer>, max: nat)
    requires NUL !in line
    ensures JobOf(line + [NUL] + pad, initial, max).toks == Tokens(line)
  {
    var was := line + [NUL] + pad;
    FindFirst(line, NUL, pad);
    assert was[..|line|] == line;
  }

  /** A call on a buffer holding such a line leaves exactly those tokens in the
      slots, and "" in all the others below the limit. */
  lemma QuotedLineFillsSlots(ws: seq<Written>, line: string, pad: string, initial: seq<Pointer>, max: nat,
                             buf: seq<char>, slots: seq<Pointer>)
    requires forall i | 0 <= i < |ws| :: Legal(ws[i])
    requires line == Joined(ws) + "\n" && '\n' !in Joined(ws) && NUL !in line
    requires max <= |slots| == |initial|
    requires Filled(JobOf(line + [NUL] + pad, initial, max), buf, slots)
    ensures forall j | 0 <= j < max :: Value(buf, slots[j]) == if j < |ws| then ws[j].text else ""
  {
    JobOfLine(line, pad, initial, max);
    QuotingRoundTrip(ws);
    var job := JobOf(line + [NUL] + pad, initial, max);
    FilledTexts(job, ws, buf, slots);
  }

  lemma FilledTexts(job: Job, ws: seq<Written>, buf: seq<char>, slots: seq<Pointer>)
    requires job.max <= |slots| == |job.initial| && Filled(job, buf, slots)
    requires job.toks == Texts(ws) + Ending(ws)
    ensures forall j | 0 <= j < job.max :: Value(buf, slots[j]) == if j < |ws| then ws[j].text else ""
  {
    forall j | 0 <= j < job.max
      ensures Value(buf, slots[j]) == if j < |ws| then ws[j].text else ""
    {
      SlotText(ws, j);
    }
  }

  lemma SlotText(ws: seq<Written>, j: nat)
    ensures var toks := Texts(ws) + Ending(ws);
            (if j < |toks| then toks[j] else "") == if j < |ws| then ws[j].text else ""
  {
    if j < |ws| { TextAt(ws, j); }
  }
}
