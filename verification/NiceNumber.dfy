/** iquota's printNice: a number with commas and a rough size in words. */
module NiceNumber {

  import opened Common

  predicate AllDigits(s: string) {
    forall i | 0 <= i < |s| :: '0' <= s[i] <= '9'
  }

  predicate IsNumber(s: string) {
    AllDigits(Digits(s))
  }

  /** At most a leading minus: true of every number, and all that the loop needs. */
  predicate OneSign(s: string) {
    '-' !in Digits(s)
  }

  function Sign(s: string): string {
    if s != "" && s[0] == '-' then "-" else ""
  }

  function Digits(s: string): string {
    if s != "" && s[0] == '-' then s[1..] else s
  }

  /** Groups of three from the right. */
  function Grouped(d: string): string {
    if |d| <= 3 then d else Grouped(d[..|d| - 3]) + "," + d[|d| - 3..]
  }

  function Nice(s: string): string {
    Sign(s) + Grouped(Digits(s))
  }

  function Commas(digits: nat): nat {
    if digits == 0 then 0 else (digits - 1) / 3
  }

  // -------------------------------------------------- from the left, as the loop goes

  /** How many digits come before the first comma, of so many in all. */
  function Phase(digits: nat): (p: nat)
    ensures 1 <= p <= 3 && (digits > 0 ==> p <= digits && (digits - p) % 3 == 0)
  {
    if digits % 3 == 0 then 3 else digits % 3
  }

  /** The loop's output for the digits `d`, with a comma due after `due` of them
      unless they end there. */
  function FromLeft(d: string, due: nat): string
    requires due > 0
    decreases |d|
  {
    if d == "" then ""
    else if due == 1 && |d| > 1 then [d[0]] + "," + FromLeft(d[1..], 3)
    else [d[0]] + FromLeft(d[1..], if due == 1 then 3 else due - 1)
  }

  lemma {:induction false} FromLeftGroup(d: string, due: nat)
    requires 1 <= due <= 3 && due <= |d|
    ensures FromLeft(d, due) == if due == |d| then d else d[..due] + "," + FromLeft(d[due..], 3)
    decreases due
  {
    if due > 1 {
      FromLeftGroup(d[1..], due - 1);
      assert [d[0]] + d[1..][..due - 1] == d[..due] && d[1..][due - 1..] == d[due..];
      assert [d[0]] + d[1..] == d;
    } else {
      assert d[..1] == [d[0]];
      if |d| == 1 { assert d[1..] == ""; }
    }
  }

  lemma PhaseFacts(n: nat)
    requires n > 3
    ensures Phase(n) == Phase(n - 3) && Phase(n - Phase(n)) == 3 && n - Phase(n) >= 3
    ensures n <= 6 ==> Phase(n) == n - 3
  {
  }

  lemma PhaseSmall(n: nat)
    requires 1 <= n <= 3
    ensures Phase(n) == n
  {
  }

  lemma Regroup(a: string, b: string, c: string)
    ensures (a + "," + b) + "," + c == a + "," + (b + "," + c)
  {
  }

  lemma ShortGroups(d: string)
    requires 3 < |d| <= 6
    ensures Grouped(d) == d[..|d| - 3] + "," + d[|d| - 3..]
    ensures Grouped(d[|d| - 3..]) == d[|d| - 3..]
  {
  }

  lemma LastGroup(d: string, p: nat)
    requires |d| > p + 3
    ensures var front, back := d[..|d| - 3], d[|d| - 3..];
            front[..p] == d[..p] && Grouped(d[p..]) == Grouped(front[p..]) + "," + back
  {
    var rest := d[p..];
    assert rest[..|rest| - 3] == d[..|d| - 3][p..];
    assert rest[|rest| - 3..] == d[|d| - 3..];
  }

  /** The first p digits, of which there are p and a multiple of three in all, make
      the first group. */
  lemma {:induction false} GroupedLeft(d: string, p: nat, groups: nat)
    requires 1 <= p <= 3 && groups >= 1 && |d| == p + 3 * groups
    ensures Grouped(d) == d[..p] + "," + Grouped(d[p..])
    decreases groups
  {
    if groups == 1 {
      ShortGroups(d);
    } else {
      var front, back := d[..|d| - 3], d[|d| - 3..];
      GroupedLeft(front, p, groups - 1);
      LastGroup(d, p);
      Regroup(d[..p], Grouped(front[p..]), back);
    }
  }

  /** Counting from the left with the right phase is grouping from the right. */
  lemma {:induction false} LeftIsRight(d: string)
    ensures FromLeft(d, Phase(|d|)) == Grouped(d)
    decreases |d|
  {
    if d != "" {
      var p := Phase(|d|);
      FromLeftGroup(d, p);
      if |d| > 3 {
        PhaseFacts(|d|);
        GroupedLeft(d, p, (|d| - p) / 3);
        LeftIsRight(d[p..]);
      } else {
        PhaseSmall(|d|);
      }
    }
  }

  // ------------------------------------------------------------- what grouping means

  function WithoutCommas(s: string): string {
    if s == "" then "" else (if s[0] == ',' then "" else [s[0]]) + WithoutCommas(s[1..])
  }

  lemma {:induction false} WithoutCommasConcat(a: string, b: string)
    ensures WithoutCommas(a + b) == WithoutCommas(a) + WithoutCommas(b)
  {
    if a == "" {
      assert a + b == b;
    } else {
      assert (a + b)[1..] == a[1..] + b;
      WithoutCommasConcat(a[1..], b);
    }
  }

  lemma WithoutCommasJoin(a: string, b: string)
    ensures WithoutCommas(a + "," + b) == WithoutCommas(a) + WithoutCommas(b)
  {
    var tail := "," + b;
    assert a + "," + b == a + tail && tail[1..] == b;
    WithoutCommasConcat(a, tail);
  }

  lemma {:induction false} WithoutCommasPlain(a: string)
    requires ',' !in a
    ensures WithoutCommas(a) == a
  {
    if a != "" { WithoutCommasPlain(a[1..]); }
  }

  /** Deleting the commas gives the digits back. */
  lemma {:induction false} GroupedReadsBack(d: string)
    requires ',' !in d
    ensures WithoutCommas(Grouped(d)) == d
    decreases |d|
  {
    if |d| <= 3 {
      WithoutCommasPlain(d);
    } else {
      var front, back := d[..|d| - 3], d[|d| - 3..];
      GroupedReadsBack(front);
      WithoutCommasPlain(back);
      WithoutCommasJoin(Grouped(front), back);
      assert front + back == d;
    }
  }

  /** One comma for every three digits after the first one to three. */
  lemma {:induction false} GroupedLength(d: string)
    ensures |Grouped(d)| == |d| + Commas(|d|)
    decreases |d|
  {
    if |d| > 3 {
      GroupedLength(d[..|d| - 3]);
    }
  }

  /** Counted from the end, every fourth character is a comma and no other is. */
  lemma {:induction false} CommaPlaces(d: string, i: nat)
    requires ',' !in d && i < |Grouped(d)|
    ensures Grouped(d)[i] == ',' <==> (|Grouped(d)| - i) % 4 == 0
    decreases |d|
  {
    if |d| > 3 {
      var front := Grouped(d[..|d| - 3]);
      if i < |front| { CommaPlaces(d[..|d| - 3], i); }
    }
  }

  lemma NiceMeaning(s: string)
    requires ',' !in s
    ensures WithoutCommas(Nice(s)) == s
    ensures |Nice(s)| == |s| + Commas(|Digits(s)|)
    ensures |Nice(s)| + 1 <= 40 <==> |s| <= 30
  {
    SignAndDigits(s);
    assert ',' !in Digits(s);
    GroupedReadsBack(Digits(s));
    GroupedLength(Digits(s));
    WithoutCommasConcat(Sign(s), Grouped(Digits(s)));
    WithoutCommasPlain(Sign(s));
    SignAndDigits(s);
  }

  // ---------------------------------------------------------------- the two buffers

  /** The sign and the digits before the first comma. */
  function Lead(s: string): string {
    var d := Digits(s);
    Sign(s) + (if |d| <= 3 then d else d[..Phase(|d|)])
  }

  /** What the loop works from: the text, the length of its sign, the digits
      before the first comma, and what the two buffers are to hold. */
  datatype Job = Job(s: string, sign: nat, phase: nat, nice: string, lead: string)

  ghost predicate Sound(job: Job) {
    && job.sign <= |job.s| && 1 <= job.phase <= 3 && job.sign <= 1
    && job.nice == job.s[..job.sign] + FromLeft(job.s[job.sign..], job.phase)
    && job.lead == if |job.s| - job.sign <= job.phase then job.s else job.s[..job.sign + job.phase]
  }

  function JobOf(s: string): Job {
    Job(s, |Sign(s)|, Phase(|Digits(s)|), Nice(s), Lead(s))
  }

  lemma SignAndDigits(s: string)
    ensures s[..|Sign(s)|] == Sign(s) && s[|Sign(s)|..] == Digits(s) && s == Sign(s) + Digits(s)
  {
  }

  lemma JobIsSound(s: string)
    ensures Sound(JobOf(s))
  {
    var d, p := Digits(s), Phase(|Digits(s)|);
    LeftIsRight(d);
    SignAndDigits(s);
    if |d| > 3 {
      assert s[..|Sign(s)| + p] == Sign(s) + d[..p];
    } else if d != "" {
      PhaseSmall(|d|);
    }
  }

  /** Characters still to be written at position i with a comma due. */
  function Ahead(job: Job, i: nat, due: nat): string
    requires i <= |job.s|
  {
    if i < job.sign then job.nice else FromLeft(job.s[i..], if due == 0 then 3 else due)
  }

  /** The state at the top of the loop. */
  ghost predicate Running(job: Job, nice: seq<char>, first: seq<char>, i: nat, due: nat, firstComma: nat, commas: nat) {
    && i <= |job.s| && |nice| == i + commas && due <= 3 && (due == 0 ==> i == |job.s|)
    && nice + Ahead(job, i, due) == job.nice
    && (i < job.sign ==> commas == 0 && firstComma == 0)
    && (if firstComma == 0
        then first == job.s[..i] && commas == 0 && due == job.phase - (if i < job.sign then 0 else i - job.sign)
        else first == job.lead)
  }

  lemma SignThenDigit(s: string, i: nat)
    requires OneSign(s) && i < |s|
    ensures s[i] == '-' <==> i < |Sign(s)|
  {
    if s[0] == '-' && i > 0 {
      assert s[i] == Digits(s)[i - 1];
    }
  }

  lemma StepSign(job: Job, nice: seq<char>, first: seq<char>, i: nat, due: nat, firstComma: nat, commas: nat)
    requires Sound(job) && i < job.sign && Running(job, nice, first, i, due, firstComma, commas)
    ensures Running(job, nice + [job.s[i]], first + [job.s[i]], i + 1, due, firstComma, commas)
  {
    assert job.s[..1] == job.s[..0] + [job.s[0]];
    assert nice == [] && nice + [job.s[0]] == job.s[..1];
  }

  /** A digit that is not followed by a comma. */
  lemma StepPlain(job: Job, nice: seq<char>, first: seq<char>, i: nat, due: nat, firstComma: nat, commas: nat)
    requires job.sign <= i < |job.s| && Running(job, nice, first, i, due, firstComma, commas)
    requires due > 1 || i == |job.s| - 1
    ensures Running(job, nice + [job.s[i]], if firstComma == 0 then first + [job.s[i]] else first,
                    i + 1, due - 1, firstComma, commas)
  {
    var s, c := job.s, job.s[i];
    OneMore(s, i);
    var rest, next := s[i..], if due == 1 then 3 else due - 1;
    assert FromLeft(rest, due) == [c] + FromLeft(rest[1..], next);
    Associates(nice, [c], FromLeft(s[i + 1..], next));
  }

  lemma OneMore(s: string, i: nat)
    requires i < |s|
    ensures s[..i + 1] == s[..i] + [s[i]] && s[i..][0] == s[i] && s[i..][1..] == s[i + 1..]
  {
  }

  /** A digit that is followed by a comma. */
  lemma StepComma(job: Job, nice: seq<char>, first: seq<char>, i: nat, due: nat, firstComma: nat, commas: nat)
    requires Sound(job) && job.sign <= i < |job.s| - 1 && due == 1
    requires Running(job, nice, first, i, due, firstComma, commas)
    ensures Running(job, nice + [job.s[i]] + [','], if firstComma == 0 then first + [job.s[i]] else first,
                    i + 1, 3, 1, commas + 1)
  {
    var s, c := job.s, job.s[i];
    OneMore(s, i);
    var rest, more := s[i..], FromLeft(s[i + 1..], 3);
    assert FromLeft(rest, due) == [c] + "," + more;
    Associates(nice, [c] + ",", more);
    Associates(nice, [c], ",");
  }

  /** The loop's variables, with the buffers as far as they are filled. */
  datatype Loop = Loop(nice: string, first: string, due: nat, firstComma: nat, commas: nat)

  /** One turn of the loop. */
  function Turn(s: string, i: nat, l: Loop): Loop
    requires i < |s| && l.due > 0
  {
    var c := s[i];
    var first := if l.firstComma == 0 then l.first + [c] else l.first;
    var due := if c == '-' then l.due else l.due - 1;
    if due == 0 && i < |s| - 1 then Loop(l.nice + [c] + [','], first, 3, 1, l.commas + 1)
    else Loop(l.nice + [c], first, due, l.firstComma, l.commas)
  }

  ghost predicate InLoop(job: Job, i: nat, l: Loop) {
    Running(job, l.nice, l.first, i, l.due, l.firstComma, l.commas)
  }

  lemma TurnKeeps(job: Job, i: nat, l: Loop)
    requires Sound(job) && OneSign(job.s) && job.sign == |Sign(job.s)| && i < |job.s| && InLoop(job, i, l)
    ensures l.due > 0 && InLoop(job, i + 1, Turn(job.s, i, l))
  {
    SignThenDigit(job.s, i);
    if job.s[i] == '-' {
      TurnAtSign(job, i, l);
    } else if l.due == 1 && i < |job.s| - 1 {
      TurnAtComma(job, i, l);
    } else {
      TurnElsewhere(job, i, l);
    }
  }

  lemma TurnAtSign(job: Job, i: nat, l: Loop)
    requires Sound(job) && i < job.sign && job.s[i] == '-' && InLoop(job, i, l)
    ensures l.due > 0 && InLoop(job, i + 1, Turn(job.s, i, l))
  {
    StepSign(job, l.nice, l.first, i, l.due, l.firstComma, l.commas);
    assert Turn(job.s, i, l) == Loop(l.nice + [job.s[i]], l.first + [job.s[i]], l.due, l.firstComma, l.commas);
  }

  lemma TurnAtComma(job: Job, i: nat, l: Loop)
    requires Sound(job) && job.sign <= i < |job.s| - 1 && job.s[i] != '-' && l.due == 1 && InLoop(job, i, l)
    ensures InLoop(job, i + 1, Turn(job.s, i, l))
  {
    StepComma(job, l.nice, l.first, i, l.due, l.firstComma, l.commas);
    var first := if l.firstComma == 0 then l.first + [job.s[i]] else l.first;
    assert Turn(job.s, i, l) == Loop(l.nice + [job.s[i]] + [','], first, 3, 1, l.commas + 1);
  }

  lemma TurnElsewhere(job: Job, i: nat, l: Loop)
    requires Sound(job) && job.sign <= i < |job.s| && job.s[i] != '-' && (l.due != 1 || i == |job.s| - 1)
    requires InLoop(job, i, l)
    ensures l.due > 0 && InLoop(job, i + 1, Turn(job.s, i, l))
  {
    StepPlain(job, l.nice, l.first, i, l.due, l.firstComma, l.commas);
    var first := if l.firstComma == 0 then l.first + [job.s[i]] else l.first;
    assert Turn(job.s, i, l) == Loop(l.nice + [job.s[i]], first, l.due - 1, l.firstComma, l.commas);
  }

  lemma Begin(job: Job)
    requires Sound(job)
    ensures Running(job, [], [], 0, job.phase, 0, 0)
  {
    if job.sign == 0 {
      assert job.s[..0] == "" && "" + FromLeft(job.s[0..], job.phase) == FromLeft(job.s[0..], job.phase);
    }
  }

  lemma Finish(job: Job, nice: seq<char>, first: seq<char>, due: nat, firstComma: nat, commas: nat)
    requires Sound(job) && Running(job, nice, first, |job.s|, due, firstComma, commas)
    ensures nice == job.nice && first == job.lead && commas == |job.nice| - |job.s|
  {
    assert job.s[|job.s|..] == "" && nice + "" == nice && job.s[..|job.s|] == job.s;
  }

  /** The loop's state after the first i characters of any text. */
  function After(s: string, i: nat): (l: Loop)
    requires i <= |s|
    ensures i < |s| ==> l.due > 0
  {
    if i == 0 then Loop("", "", Phase(|Digits(s)|), 0, 0) else Turn(s, i - 1, After(s, i - 1))
  }

  function Whole(s: string): Loop {
    After(s, |s|)
  }

  /** What the loop writes, with a NUL behind it, fits the two buffers. */
  predicate Fits(s: string) {
    |Whole(s).nice| < 40 && |Whole(s).first| < 10
  }

  lemma {:induction false} Grows(s: string, i: nat, j: nat)
    requires i <= j <= |s|
    ensures |After(s, i).nice| <= |After(s, j).nice| && |After(s, i).first| <= |After(s, j).first|
    decreases j
  {
    if i < j { Grows(s, i, j - 1); }
  }

  lemma {:induction false} AfterIsInLoop(job: Job, s: string, i: nat)
    requires Sound(job) && job.s == s && job.sign == |Sign(s)| && job.phase == Phase(|Digits(s)|)
    requires OneSign(s) && i <= |s|
    ensures InLoop(job, i, After(s, i))
    decreases i
  {
    if i == 0 {
      Begin(job);
    } else {
      AfterIsInLoop(job, s, i - 1);
      TurnKeeps(job, i - 1, After(s, i - 1));
    }
  }

  /** On a number the loop writes the grouped number and the part before the
      first comma, and counts the commas. */
  lemma LoopGroups(s: string)
    requires OneSign(s)
    ensures Whole(s).nice == Nice(s) && Whole(s).first == Lead(s) && Whole(s).commas == Commas(|Digits(s)|)
  {
    var l := Whole(s);
    JobIsSound(s);
    AfterIsInLoop(JobOf(s), s, |s|);
    Finish(JobOf(s), l.nice, l.first, l.due, l.firstComma, l.commas);
    GroupedLength(Digits(s));
    SignAndDigits(s);
  }

  /** A number fits the buffers exactly when it has at most 30 characters. */
  lemma FitsExactly(s: string)
    requires OneSign(s)
    ensures Fits(s) <==> |s| <= 30
  {
    LoopGroups(s);
    GroupedLength(Digits(s));
    SignAndDigits(s);
  }

  method FirstComma(inArg: string) returns (nextComma: nat)
    ensures nextComma == Phase(|Digits(inArg)|)
  {
    var len := |inArg|;
    nextComma := len % 3;
    if len > 0 && inArg[0] == '-' {
      nextComma := (len - 1) % 3;
    }
    if nextComma == 0 {
      nextComma := 3;
    }
  }

  /** buf[at] = c, with what was written before it left alone. */
  method Put(buf: array<char>, at: nat, c: char)
    requires at < buf.Length
    modifies buf
    ensures buf[..at + 1] == old(buf[..at]) + [c]
  {
    buf[at] := c;
  }

  /** The loop's body. */
  method CopyOne(inArg: string, i: nat, niceString: array<char>, firstPart: array<char>,
                 n0: nat, k0: nat, due: nat, started: nat, commas: nat)
    returns (n: nat, k: nat, nextComma: nat, firstComma: nat, commaCount: nat)
    requires i < |inArg| && due > 0 && niceString != firstPart
    requires n0 <= niceString.Length && k0 <= firstPart.Length
    requires var l := Turn(inArg, i, Loop(niceString[..n0], firstPart[..k0], due, started, commas));
             |l.nice| <= niceString.Length && |l.first| <= firstPart.Length
    modifies niceString, firstPart
    ensures n <= niceString.Length && k <= firstPart.Length
    ensures Loop(niceString[..n], firstPart[..k], nextComma, firstComma, commaCount)
         == Turn(inArg, i, Loop(old(niceString[..n0]), old(firstPart[..k0]), due, started, commas))
  {
    n, k, nextComma, firstComma, commaCount := n0, k0, due, started, commas;
    Put(niceString, n, inArg[i]);
    n := n + 1;
    if firstComma == 0 {
      Put(firstPart, k, inArg[i]);
      k := k + 1;
    }
    if inArg[i] != '-' {
      nextComma := nextComma - 1;
    }
    if nextComma == 0 && i < |inArg| - 1 {
      Put(niceString, n, ',');
      n := n + 1;
      nextComma := 3;
      firstComma := 1;
      commaCount := commaCount + 1;
    }
  }

  /** The loop that fills niceString and firstPart, whatever the text. */
  method CopyWithCommas(inArg: string, niceString: array<char>, firstPart: array<char>)
    returns (n: nat, k: nat, commaCount: nat)
    requires Fits(inArg)
    requires niceString.Length == 40 && firstPart.Length == 10 && niceString != firstPart
    modifies niceString, firstPart
    ensures n < 40 && niceString[..n] == Whole(inArg).nice
    ensures k < 10 && firstPart[..k] == Whole(inArg).first
    ensures commaCount == Whole(inArg).commas
  {
    var nextComma := FirstComma(inArg);
    var firstComma: nat := 0;
    n, k, commaCount := 0, 0, 0;
    for i := 0 to |inArg|
      invariant n < 40 && k < 10
      invariant After(inArg, i) == Loop(niceString[..n], firstPart[..k], nextComma, firstComma, commaCount)
    {
      Grows(inArg, i + 1, |inArg|);
      n, k, nextComma, firstComma, commaCount :=
        CopyOne(inArg, i, niceString, firstPart, n, k, nextComma, firstComma, commaCount);
      assert |After(inArg, i + 1).nice| == n && |After(inArg, i + 1).first| == k;
    }
  }

  /** The loop and the two terminators. */
  method FillBuffers(inArg: string, niceString: array<char>, firstPart: array<char>)
    returns (n: nat, k: nat, commaCount: nat)
    requires Fits(inArg)
    requires niceString.Length == 40 && firstPart.Length == 10 && niceString != firstPart
    modifies niceString, firstPart
    ensures n < 40 && niceString[..n] == Whole(inArg).nice && niceString[n] == NUL
    ensures k < 10 && firstPart[..k] == Whole(inArg).first && firstPart[k] == NUL
    ensures commaCount == Whole(inArg).commas
    ensures OneSign(inArg) ==>
              niceString[..n] == Nice(inArg) && firstPart[..k] == Lead(inArg) && commaCount == Commas(|Digits(inArg)|)
  {
    n, k, commaCount := CopyWithCommas(inArg, niceString, firstPart);
    niceString[n] := NUL;
    firstPart[k] := NUL;
    if OneSign(inArg) { LoopGroups(inArg); }
  }

  // ----------------------------------------------------------- the rough size in words

  function Value(d: string): nat
    requires AllDigits(d)
  {
    if d == "" then 0 else 10 * Value(d[..|d| - 1]) + (d[|d| - 1] as int - '0' as int)
  }

  function Pow1000(n: nat): nat {
    if n == 0 then 1 else 1000 * Pow1000(n - 1)
  }

  lemma ValueOfOne(d: string)
    requires AllDigits(d) && d != ""
    ensures AllDigits(d[..|d| - 1])
    ensures 10 * Value(d[..|d| - 1]) <= Value(d) <= 10 * Value(d[..|d| - 1]) + 9
  {
  }

  lemma ValueOfThree(d: string)
    requires AllDigits(d) && |d| >= 3
    ensures AllDigits(d[..|d| - 3])
    ensures 1000 * Value(d[..|d| - 3]) <= Value(d) < 1000 * Value(d[..|d| - 3]) + 1000
  {
    var d1, d2 := d[..|d| - 1], d[..|d| - 2];
    assert d1[..|d1| - 1] == d2 && d2[..|d2| - 1] == d[..|d| - 3];
    ValueOfOne(d);
    ValueOfOne(d1);
    ValueOfOne(d2);
  }

  /** Cutting off n groups of three leaves the number in units of 1000 to the n. */
  lemma {:induction false} ValueOfLead(d: string, n: nat)
    requires AllDigits(d) && 3 * n <= |d|
    ensures AllDigits(d[..|d| - 3 * n])
    ensures Value(d[..|d| - 3 * n]) * Pow1000(n) <= Value(d) < (Value(d[..|d| - 3 * n]) + 1) * Pow1000(n)
    decreases n
  {
    if n == 0 {
      assert d[..|d|] == d;
    } else {
      var front := d[..|d| - 3];
      ValueOfThree(d);
      ValueOfLead(front, n - 1);
      var lead := d[..|d| - 3 * n];
      assert front[..|front| - 3 * (n - 1)] == lead;
      Thousandfold(Value(lead), Value(front), Value(d), Pow1000(n - 1));
    }
  }

  lemma Thousandfold(lead: nat, front: nat, all: nat, unit: nat)
    requires lead * unit <= front < (lead + 1) * unit && 1000 * front <= all < 1000 * front + 1000
    ensures lead * (1000 * unit) <= all < (lead + 1) * (1000 * unit)
  {
    assert lead * (1000 * unit) == 1000 * (lead * unit);
    assert (lead + 1) * (1000 * unit) == 1000 * ((lead + 1) * unit);
  }

  /** The number in parentheses is the size in units of 1000 to the number of
      commas, rounded towards zero. */
  lemma LeadIsRoughSize(s: string)
    requires IsNumber(s)
    ensures AllDigits(Digits(Lead(s))) && Sign(Lead(s)) == Sign(s)
    ensures var n := Commas(|Digits(s)|);
            Value(Digits(Lead(s))) * Pow1000(n) <= Value(Digits(s)) < (Value(Digits(Lead(s))) + 1) * Pow1000(n)
  {
    var d := Digits(s);
    var n := Commas(|d|);
    var lead := if |d| <= 3 then d else d[..Phase(|d|)];
    LeadLength(|d|);
    assert d[..|d|] == d;
    assert lead == d[..|d| - 3 * n];
    ValueOfLead(d, n);
    assert Digits(Lead(s)) == lead;
  }

  lemma LeadLength(digits: nat)
    ensures 3 * Commas(digits) <= digits
    ensures digits - 3 * Commas(digits) == if digits <= 3 then digits else Phase(digits)
  {
  }

  function NumberName(commas: nat): string {
    match commas
    case 0 => ""
    case 1 => "thousand"
    case 2 => "million"
    case 3 => "billion"
    case 4 => "trillion"
    case 5 => "quadrillion"
    case 6 => "quintillion"
    case 7 => "sextillion"
    case 8 => "septillion"
    case _ => "very many"
  }

  function Spaces(n: nat): string {
    if n == 0 then "" else " " + Spaces(n - 1)
  }

  /** Padding, grouped text, the rough size if there is a comma, and the units. */
  function Layout(nice: string, lead: string, commas: nat, minLen: int, units: string): string {
    Spaces(if |nice| < minLen then minLen - |nice| else 0) + nice
    + (if commas == 0 then " " else " (" + lead + " " + NumberName(commas) + ") ") + units
  }

  /** printNice: the whole of what it prints. The text must fit the buffers, and
      the padding the 40-character literal it is cut from. */
  method PrintNice(inArg: string, minLen: int, units: string) returns (text: string)
    requires Fits(inArg) && minLen - |Whole(inArg).nice| <= 40
    ensures text == Layout(Whole(inArg).nice, Whole(inArg).first, Whole(inArg).commas, minLen, units)
    ensures OneSign(inArg) ==> text == Layout(Nice(inArg), Lead(inArg), Commas(|Digits(inArg)|), minLen, units)
  {
    var niceString, firstPart := new char[40], new char[10];
    var n, k, commaCount := FillBuffers(inArg, niceString, firstPart);
    var pad := if n < minLen then Spaces(minLen - n) else "";
    var size := " ";
    if commaCount != 0 {
      size := " (" + firstPart[..k] + " " + NumberName(commaCount) + ") ";
    }
    text := pad + niceString[..n] + size + units;
  }
}
