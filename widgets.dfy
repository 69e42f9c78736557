/** The arithmetic and string logic inside the widget constructors: `formatTime`, the
    countdown breakdown, the group maker, the Google Slides embed rewrite, the timer, visual
    timer and poll counters, and the traffic-light and work-symbol cycles. */
module Widgets {
  import opened Wrappers
  import opened Text

  // ---------------------------------------------------------------------------------------
  // Integer division facts

  /** A positive multiple of b is at least b. */
  lemma MulAtLeast(b: nat, d: nat)
    requires d >= 1
    ensures b * d >= b
    decreases d
  {
    if d > 1 {
      MulAtLeast(b, d - 1);
      assert b * d == b * (d - 1) + b;
    }
  }

  /** Quotient and remainder are the unique pair that recomposes the dividend. */
  lemma DivModUnique(a: int, b: int, q: int, r: int)
    requires b > 0 && a == b * q + r && 0 <= r < b
    ensures a / b == q && a % b == r
  {
    var q0, r0 := a / b, a % b;
    assert a == b * q0 + r0;
    assert b * q - b * q0 == r0 - r;
    assert b * (q - q0) == r0 - r;
    if q > q0 {
      MulAtLeast(b, q - q0);
    } else if q < q0 {
      MulAtLeast(b, q0 - q);
    }
  }

  /** Dividing twice is dividing by the product. */
  lemma DivDiv(a: nat, b: nat, c: nat)
    requires b > 0 && c > 0
    ensures a / b / c == a / (b * c)
  {
    var q1 := a / b;
    var q := q1 / c;
    var r := b * (q1 % c) + a % b;
    assert q1 == c * q + q1 % c;
    assert a == b * q1 + a % b;
    assert b * q1 == (b * c) * q + b * (q1 % c);
    MulAtLeast(b, c - q1 % c);
    assert b * (c - q1 % c) == b * c - b * (q1 % c);
    DivModUnique(a, b * c, q, r);
  }

  /** The remainder by a multiple of b, divided by b, is the quotient by b reduced mod k. */
  lemma ModMultipleDiv(a: nat, b: nat, k: nat)
    requires b > 0 && k > 0
    ensures a % (b * k) / b == a / b % k
  {
    var q1 := a / b;
    var r := b * (q1 % k) + a % b;
    assert q1 == k * (q1 / k) + q1 % k;
    assert a == b * q1 + a % b;
    assert b * q1 == (b * k) * (q1 / k) + b * (q1 % k);
    MulAtLeast(b, k - q1 % k);
    assert b * (k - q1 % k) == b * k - b * (q1 % k);
    DivModUnique(a, b * k, q1 / k, r);
    DivModUnique(r, b, q1 % k, a % b);
  }

  /** Adding one to an index below n and reducing mod n wraps to 0 only from n - 1. */
  lemma StepMod(x: nat, n: nat)
    requires 0 < n && x < n
    ensures (x + 1) % n == if x + 1 < n then x + 1 else 0
  {
    if x + 1 < n {
      DivModUnique(x + 1, n, 0, x + 1);
    } else {
      DivModUnique(x + 1, n, 1, 0);
    }
  }

  // ---------------------------------------------------------------------------------------
  // formatTime

  /** JavaScript's `a % b` for b > 0: the dividend minus a multiple of the divisor, below
      the divisor in magnitude, with the sign of the dividend. */
  function JsRem(a: int, b: int): (r: int)
    requires b > 0
    ensures -b < r < b && (a >= 0 ==> r >= 0) && (a <= 0 ==> r <= 0)
    ensures (a - r) % b == 0
  {
    if a >= 0 then
      DivModUnique(a - a % b, b, a / b, 0);
      a % b
    else
      DivModUnique(a + (-a) % b, b, -((-a) / b), 0);
      -((-a) % b)
  }

  /** `formatTime(s)`: `Math.floor(s / 60)`, a colon, and `s % 60` padded to two
      characters. For a negative s the remainder is negative and the text carries two minus
      signs. */
  function FormatTime(s: int): string
  {
    IntToString(s / 60) + ":" + PadStart(IntToString(JsRem(s, 60)), 2, '0')
  }

  /** A two-digit field as `padStart(2, '0')` renders a number below 100. */
  lemma TwoDigits(n: nat)
    requires n < 100
    ensures PadStart(NatToString(n), 2, '0') == [Digit(n / 10), Digit(n % 10)]
  {
    if n < 10 {
      assert NatToString(n) == [Digit(n)];
      assert PadStart([Digit(n)], 2, '0') == PadStart(['0'] + [Digit(n)], 2, '0');
      assert PadStart(['0', Digit(n)], 2, '0') == ['0', Digit(n)];
      assert Digit(0) == '0';
    } else {
      assert NatToString(n / 10) == [Digit(n / 10)];
      assert NatToString(n) == [Digit(n / 10)] + [Digit(n % 10)];
    }
  }

  /** For a non-negative count of seconds: the whole minutes, a colon, and exactly two
      digits of remaining seconds. */
  lemma FormatTimeShape(s: nat)
    ensures FormatTime(s) == NatToString(s / 60) + ":" + [Digit(s % 60 / 10), Digit(s % 60 % 10)]
  {
    TwoDigits(s % 60);
  }

  /** Reading a `m:ss` text back as seconds; None for any other text. */
  function ParseTime(t: string): Option<nat>
  {
    if |t| >= 4 && t[|t| - 3] == ':' && AllDigits(t[..|t| - 3]) && AllDigits(t[|t| - 2..]) then
      Some(DigitsValue(t[..|t| - 3]) * 60 + DigitsValue(t[|t| - 2..]))
    else None
  }

  /** The value of two digits. */
  lemma TwoDigitsValue(a: nat, b: nat)
    requires a < 10 && b < 10
    ensures AllDigits([Digit(a), Digit(b)]) && DigitsValue([Digit(a), Digit(b)]) == 10 * a + b
  {
    var t := [Digit(a), Digit(b)];
    var u := [Digit(a)];
    assert u[..0] == [];
    assert DigitsValue(u) == a;
    assert t[..1] == u;
  }

  /** ParseTime reads digits, a colon and two digits. */
  lemma ParseTimeOf(m: string, sec: string)
    requires |m| >= 1 && AllDigits(m) && |sec| == 2 && AllDigits(sec)
    ensures ParseTime(m + ":" + sec) == Some(DigitsValue(m) * 60 + DigitsValue(sec))
  {
    var t := m + ":" + sec;
    assert t[..|t| - 3] == m;
    assert t[|t| - 2..] == sec;
    assert t[|t| - 3] == ':';
  }

  /** formatTime loses nothing for non-negative seconds: the text reads back as s. */
  lemma FormatTimeRoundTrip(s: nat)
    ensures ParseTime(FormatTime(s)) == Some(s)
  {
    FormatTimeShape(s);
    NatToStringRoundTrip(s / 60);
    TwoDigitsValue(s % 60 / 10, s % 60 % 10);
    ParseTimeOf(NatToString(s / 60), [Digit(s % 60 / 10), Digit(s % 60 % 10)]);
  }

  // ---------------------------------------------------------------------------------------
  // eventCountdown

  const MsPerSecond := 1000
  const MsPerMinute := 60000
  const MsPerHour := 3600000
  const MsPerDay := 86400000

  /** What the countdown shows for a difference `when - now` in milliseconds. */
  datatype Countdown = Reached | Remaining(days: nat, hours: nat, minutes: nat, seconds: nat)

  /** `upd`'s breakdown: nothing left when the difference is not positive, otherwise whole
      days, then hours of the part-day, minutes of the part-hour, seconds of the part-minute. */
  function CountdownOf(diff: int): Countdown
  {
    if diff <= 0 then Reached
    else Remaining(diff / MsPerDay, diff % MsPerDay / MsPerHour, diff % MsPerHour / MsPerMinute,
                   diff % MsPerMinute / MsPerSecond)
  }

  /** The text the countdown displays. */
  function CountdownText(c: Countdown): string
  {
    match c
    case Reached => "\U{1F389}"
    case Remaining(d, h, m, s) =>
      NatToString(d) + "d " + NatToString(h) + "h " + NatToString(m) + "m " + NatToString(s) + "s"
  }

  /** The breakdown is a clock reading: hours below 24, minutes and seconds below 60, and
      together they recompose the whole seconds of the difference. */
  lemma CountdownRecomposes(diff: int)
    ensures CountdownOf(diff).Reached? <==> diff <= 0
    ensures diff > 0 ==> var c := CountdownOf(diff);
      c.hours < 24 && c.minutes < 60 && c.seconds < 60 &&
      ((c.days * 24 + c.hours) * 60 + c.minutes) * 60 + c.seconds == diff / MsPerSecond
  {
    if diff > 0 {
      var t := diff / 1000;
      ModMultipleDiv(diff, 1000, 60);
      ModMultipleDiv(diff, 60000, 60);
      ModMultipleDiv(diff, 3600000, 24);
      DivDiv(diff, 1000, 60);
      DivDiv(diff, 60000, 60);
      DivDiv(diff, 3600000, 24);
      var t1 := t / 60;
      var t2 := t1 / 60;
      assert t == 60 * t1 + t % 60;
      assert t1 == 60 * t2 + t1 % 60;
      assert t2 == 24 * (t2 / 24) + t2 % 24;
    }
  }

  // ---------------------------------------------------------------------------------------
  // groupMaker

  /** `arr.splice(0, n)`: the removed front part and what stays. A count at or below zero
      removes nothing; one beyond the length removes everything. */
  function SpliceFront<T>(arr: seq<T>, n: int): (r: (seq<T>, seq<T>))
    ensures r.0 + r.1 == arr
    ensures |r.0| == if n <= 0 then 0 else if n >= |arr| then |arr| else n
  {
    var k := if n <= 0 then 0 else if n >= |arr| then |arr| else n;
    (arr[..k], arr[k..])
  }

  /** `parseInt(cfg?.size) || parseInt(prompt(...), 10) || 2`, as written: the first
      parsed, non-zero value, which may be negative. */
  function GroupSize(cfgSize: Option<int>, prompted: Option<int>): int
  {
    if cfgSize.Some? && cfgSize.value != 0 then cfgSize.value
    else if prompted.Some? && prompted.value != 0 then prompted.value
    else 2
  }

  /** A negative size gets through, and the loop's splice then removes nothing: the names
      never run out and the `while (arr.length)` loop does not end. */
  lemma NegativeSizeStalls(names: seq<string>)
    requires names != []
    ensures GroupSize(Some(-2), None) == -2
    ensures SpliceFront(names, GroupSize(Some(-2), None)) == ([], names)
  {
  }

  /** The size with non-positive values treated as missing, so that every splice removes at
      least one name. */
  function ClampedGroupSize(cfgSize: Option<int>, prompted: Option<int>): (n: int)
    ensures n >= 1
    ensures (cfgSize.None? || cfgSize.value >= 0) && (prompted.None? || prompted.value >= 0) ==>
              n == GroupSize(cfgSize, prompted)
  {
    if cfgSize.Some? && cfgSize.value >= 1 then cfgSize.value
    else if prompted.Some? && prompted.value >= 1 then prompted.value
    else 2
  }

  /** The groups the button produces: consecutive runs of `size` names, the last possibly
      shorter. */
  function Chunks<T>(xs: seq<T>, size: int): seq<seq<T>>
    requires size >= 1
    decreases |xs|
  {
    if xs == [] then []
    else
      var (g, rest) := SpliceFront(xs, size);
      [g] + Chunks(rest, size)
  }

  /** All groups laid end to end. */
  function Flatten<T>(gs: seq<seq<T>>): seq<T>
  {
    if gs == [] then [] else gs[0] + Flatten(gs[1..])
  }

  /** The groups' concatenation is exactly the names, in order. */
  lemma {:induction false} ChunksFlatten<T>(xs: seq<T>, size: int)
    requires size >= 1
    ensures Flatten(Chunks(xs, size)) == xs
    decreases |xs|
  {
    if xs != [] {
      var (g, rest) := SpliceFront(xs, size);
      ChunksFlatten(rest, size);
      assert Chunks(xs, size)[1..] == Chunks(rest, size);
    }
  }

  /** Every group but the last has exactly `size` names and the last between 1 and `size`;
      there are no groups only when there are no names. */
  lemma {:induction false} ChunksSizes<T>(xs: seq<T>, size: int)
    requires size >= 1
    ensures var gs := Chunks(xs, size);
      (gs == [] <==> xs == []) &&
      (forall i :: 0 <= i < |gs| - 1 ==> |gs[i]| == size) &&
      (gs != [] ==> 1 <= |gs[|gs| - 1]| <= size)
    decreases |xs|
  {
    if xs != [] {
      var (g, rest) := SpliceFront(xs, size);
      ChunksSizes(rest, size);
      var gs := Chunks(xs, size);
      assert gs[1..] == Chunks(rest, size);
      if rest != [] {
        assert |g| == size;
      }
    }
  }

  /** The "Make groups" button: splice groups off the front of a copy of the names until it
      is empty. */
  method MakeGroups(names: seq<string>, size: int) returns (out: seq<seq<string>>)
    requires size >= 1
    ensures out == Chunks(names, size)
  {
    var arr := names;
    out := [];
    while |arr| > 0
      invariant out + Chunks(arr, size) == Chunks(names, size)
      decreases |arr|
    {
      var (g, rest) := SpliceFront(arr, size);
      assert Chunks(arr, size) == [g] + Chunks(rest, size);
      assert out + [g] + Chunks(rest, size) == out + ([g] + Chunks(rest, size));
      out := out + [g];
      arr := rest;
    }
  }

  // ---------------------------------------------------------------------------------------
  // embed

  const SlidesMarker := "docs.google.com/presentation"

  /** `setURL`'s rewrite: a Google Slides address gets its first `/edit` replaced by
      `/embed` and loses everything from the first `&`; any other address is kept. */
  function EmbedUrl(u: string): string
  {
    if Contains(u, SlidesMarker) then BeforeFirst(ReplaceFirst(u, "/edit", "/embed"), '&') else u
  }

  /** Addresses that are not Slides pass through; Slides addresses come out with no `&`. */
  lemma EmbedUrlCases(u: string)
    ensures !Contains(u, SlidesMarker) ==> EmbedUrl(u) == u
    ensures Contains(u, SlidesMarker) ==> '&' !in EmbedUrl(u)
  {
  }

  /** A Slides address with `/edit` before any `&`: the prefix is kept, `/edit` becomes
      `/embed`, and what follows is cut at the first `&`. */
  lemma EmbedUrlRewrite(u: string)
    requires Contains(u, SlidesMarker) && Contains(u, "/edit")
    requires '&' !in u[..IndexOf(u, "/edit").value]
    ensures var i := IndexOf(u, "/edit").value;
      EmbedUrl(u) == u[..i] + "/embed" + BeforeFirst(u[i + 5..], '&')
  {
    var i := IndexOf(u, "/edit").value;
    assert ReplaceFirst(u, "/edit", "/embed") == (u[..i] + "/embed") + u[i + 5..];
    BeforeFirstAppend(u[..i] + "/embed", u[i + 5..], '&');
  }

  // ---------------------------------------------------------------------------------------
  // timer

  /** `parseInt(x) || d`: a missing, unparsable or zero value gives d. */
  function OrDefault(p: Option<int>, d: int): int
  {
    if p.Some? && p.value != 0 then p.value else d
  }

  /** A saved second count reloads as itself (`parseInt(cfg?.seconds) || 0`). */
  lemma TimerSecondsReload(sec: int)
    ensures OrDefault(ParseInt(IntToString(sec)), 0) == sec
  {
    ParseIntRoundTrip(sec);
  }

  /** The Timer widget's counter; `running` is whether `id` holds a live interval. */
  class Timer {
    var sec: int
    var running: bool

    /** Constructed from the record's `seconds`, parsed. */
    constructor(cfgSeconds: Option<int>)
      ensures sec == OrDefault(cfgSeconds, 0) && !running
    {
      sec := OrDefault(cfgSeconds, 0);
      running := false;
    }

    /** The Set button with the input's parsed value, which is also written to the
        dataset. */
    method Set(input: Option<int>)
      modifies this
      ensures sec == OrDefault(input, 0) && running == old(running)
    {
      sec := OrDefault(input, 0);
    }

    /** The start button: an interval is started only when none is live. */
    method Start()
      modifies this
      ensures running && sec == old(sec)
    {
      if !running {
        running := true;
      }
    }

    /** One second passing: a live interval counts up and writes the count to the dataset. */
    method Tick()
      modifies this
      ensures running == old(running)
      ensures sec == if old(running) then old(sec) + 1 else old(sec)
    {
      if running {
        sec := sec + 1;
      }
    }

    /** The pause button. */
    method Pause()
      modifies this
      ensures !running && sec == old(sec)
    {
      running := false;
    }

    /** The reset button. */
    method Reset()
      modifies this
      ensures !running && sec == 0
    {
      running := false;
      sec := 0;
    }

    /** The display text, `formatTime(sec)`. */
    function Display(): string
      reads this
    {
      FormatTime(sec)
    }
  }

  // ---------------------------------------------------------------------------------------
  // visualTimer

  /** `total = parseInt(cfg?.total) || 60; rem = parseInt(cfg?.remaining) || total`. */
  function VisualTimerInit(cfgTotal: Option<int>, cfgRemaining: Option<int>): (int, int)
  {
    var total := OrDefault(cfgTotal, 60);
    (total, OrDefault(cfgRemaining, total))
  }

  /** Reloading the two values `draw` saved: a running timer comes back as it was, but a
      finished one (`remaining` 0) comes back full. */
  lemma VisualTimerReload(total: int, rem: int)
    requires total != 0
    ensures var r := VisualTimerInit(ParseInt(IntToString(total)), ParseInt(IntToString(rem)));
      r.0 == total && (rem != 0 ==> r.1 == rem) && (rem == 0 ==> r.1 == total)
  {
    ParseIntRoundTrip(total);
    ParseIntRoundTrip(rem);
  }

  /** `rem` after k firings of the interval: down by one each time while positive. */
  function TicksFrom(rem: int, k: nat): int
  {
    if k == 0 then rem else if rem > 0 then TicksFrom(rem - 1, k - 1) else rem
  }

  /** A non-negative `rem` counts down to zero and stays there. */
  lemma {:induction false} TicksCountDown(rem: nat, k: nat)
    ensures TicksFrom(rem, k) == if k >= rem then 0 else rem - k
  {
    if k > 0 && rem > 0 {
      TicksCountDown(rem - 1, k - 1);
    }
  }

  /** The Visual Timer widget's state; `running` is whether its interval is live. */
  class VisualTimer {
    var total: int
    var rem: int
    var running: bool

    /** Constructed from the record, then drawn (which saves both values) and started. */
    constructor(cfgTotal: Option<int>, cfgRemaining: Option<int>)
      ensures (total, rem) == VisualTimerInit(cfgTotal, cfgRemaining) && running
    {
      var init := VisualTimerInit(cfgTotal, cfgRemaining);
      total := init.0;
      rem := init.1;
      running := true;
    }

    /** One firing of the interval: a positive `rem` goes down by one and is drawn; at zero
        the interval is cleared. */
    method Tick()
      modifies this
      ensures total == old(total)
      ensures rem == if old(running) then TicksFrom(old(rem), 1) else old(rem)
      ensures running == (old(running) && old(rem) > 0)
    {
      if running {
        if rem > 0 {
          rem := rem - 1;
        } else {
          running := false;
        }
      }
    }

    /** The Set button: the interval is cleared and, as written, never started again. */
    method Set(input: Option<int>)
      modifies this
      ensures total == OrDefault(input, 60) && rem == total && !running
    {
      running := false;
      total := OrDefault(input, 60);
      rem := total;
    }

    /** The two dataset values `draw` writes. */
    function Saved(): (string, string)
      reads this
    {
      (IntToString(total), IntToString(rem))
    }
  }

  // ---------------------------------------------------------------------------------------
  // poll

  /** `Number(x)` for the texts a poll stores: the empty text is 0, an integer text its
      value, anything else NaN (None). */
  function NumberOf(s: string): Option<int>
  {
    if s == "" then Some(0) else ParseInt(s)
  }

  /** How a count is rendered by `join`. */
  function CountText(c: Option<int>): string
  {
    match c
    case Some(n) => IntToString(n)
    case None => "NaN"
  }

  /** `counts.join(',')`. */
  function JoinCounts(counts: seq<Option<int>>): string
    requires |counts| >= 1
  {
    Join(seq(|counts|, i requires 0 <= i < |counts| => CountText(counts[i])), ',')
  }

  /** `cfg.counts.split(',').map(Number)`. */
  function ParseCounts(s: string): (counts: seq<Option<int>>)
    ensures |counts| == |Split(s, ',')| >= 1
  {
    var parts := Split(s, ',');
    seq(|parts|, i requires 0 <= i < |parts| => NumberOf(parts[i]))
  }

  /** A rendered count contains no comma and reads back as itself. */
  lemma CountTextRoundTrip(c: Option<int>)
    ensures ',' !in CountText(c) && NumberOf(CountText(c)) == c
  {
    match c
    case Some(n) =>
      ParseIntRoundTrip(n);
      NatToStringDigits(if n < 0 then -n else n);
      assert forall j :: 0 <= j < |CountText(c)| ==> CountText(c)[j] == '-' || IsDigit(CountText(c)[j]);
    case None =>
  }

  /** The counts a vote saves reload as the same counts, NaN entries included. */
  lemma CountsRoundTrip(counts: seq<Option<int>>)
    requires |counts| >= 1
    ensures ParseCounts(JoinCounts(counts)) == counts
  {
    var texts := seq(|counts|, i requires 0 <= i < |counts| => CountText(counts[i]));
    forall i | 0 <= i < |texts| ensures ',' !in texts[i] && NumberOf(texts[i]) == counts[i] {
      CountTextRoundTrip(counts[i]);
    }
    SplitJoin(texts, ',');
  }

  /** The options a poll saves (`opts.join(',')`) reload as the same options. */
  lemma OptionsRoundTrip(text: string)
    ensures Split(Join(Split(text, ','), ','), ',') == Split(text, ',')
  {
    JoinSplit(text, ',');
  }

  /** The Poll widget's options and counts. */
  class Poll {
    var opts: seq<string>
    var counts: seq<Option<int>>

    /** The options from the record or the prompt's answer; the counts from the record, or
        one zero per option. */
    constructor(cfgOpts: string, promptedOpts: string, cfgCounts: string)
      ensures opts == Split(if cfgOpts != "" then cfgOpts else promptedOpts, ',')
      ensures counts == if cfgCounts != "" then ParseCounts(cfgCounts) else seq(|opts|, _ => Some(0))
    {
      var o := Split(if cfgOpts != "" then cfgOpts else promptedOpts, ',');
      opts := o;
      counts := if cfgCounts != "" then ParseCounts(cfgCounts) else seq(|o|, _ => Some(0));
    }

    /** The button of option i: its count goes up by one (NaN stays NaN) and the counts are
        saved. */
    method Vote(i: nat) returns (saved: string)
      requires i < |counts|
      modifies this
      ensures opts == old(opts) && |counts| == |old(counts)|
      ensures counts[i] == (if old(counts)[i].Some? then Some(old(counts)[i].value + 1) else None)
      ensures forall j :: 0 <= j < |counts| && j != i ==> counts[j] == old(counts)[j]
      ensures saved == JoinCounts(counts)
    {
      var c := counts[i];
      counts := counts[i := if c.Some? then Some(c.value + 1) else None];
      saved := JoinCounts(counts);
    }
  }

  // ---------------------------------------------------------------------------------------
  // trafficLight, workSymbols

  /** `(i + 1) % n`. */
  function Cycle(i: nat, n: nat): (j: nat)
    requires n >= 1
    ensures j < n
  {
    (i + 1) % n
  }

  /** The index after k presses starting from i. */
  function CycleN(i: nat, n: nat, k: nat): (j: nat)
    requires n >= 1
  {
    if k == 0 then i else Cycle(CycleN(i, n, k - 1), n)
  }

  /** Reducing before or after adding one gives the same index. */
  lemma ModSucc(p: nat, n: nat)
    requires n > 0
    ensures (p % n + 1) % n == (p + 1) % n
  {
    var x := p % n;
    StepMod(x, n);
    assert p == n * (p / n) + x;
    if x + 1 < n {
      DivModUnique(p + 1, n, p / n, x + 1);
    } else {
      assert n * (p / n + 1) == n * (p / n) + n;
      DivModUnique(p + 1, n, p / n + 1, 0);
    }
  }

  /** After k presses from an index below n the index is (i + k) mod n. */
  lemma {:induction false} CycleNFormula(i: nat, n: nat, k: nat)
    requires n >= 1 && i < n
    ensures CycleN(i, n, k) == (i + k) % n
  {
    if k == 0 {
      DivModUnique(i, n, 0, i);
    } else {
      CycleNFormula(i, n, k - 1);
      ModSucc(i + k - 1, n);
    }
  }

  /** The number of presses from index i to index j, going round n positions. */
  function StepsTo(i: nat, j: nat, n: nat): nat
    requires i < n && j < n
  {
    if j >= i then j - i else j + n - i
  }

  /** n presses bring the index back, and within n presses every index comes up. */
  lemma CycleCovers(i: nat, n: nat)
    requires n >= 1 && i < n
    ensures CycleN(i, n, n) == i
    ensures forall j :: 0 <= j < n ==> StepsTo(i, j, n) < n && CycleN(i, n, StepsTo(i, j, n)) == j
  {
    CycleNFormula(i, n, n);
    DivModUnique(i + n, n, 1, i);
    forall j | 0 <= j < n ensures StepsTo(i, j, n) < n && CycleN(i, n, StepsTo(i, j, n)) == j {
      var k := StepsTo(i, j, n);
      CycleNFormula(i, n, k);
      if j >= i {
        DivModUnique(i + k, n, 0, j);
      } else {
        DivModUnique(i + k, n, 1, j);
      }
    }
  }

  const Lights: seq<string> := ["red", "yellow", "green"]

  /** The traffic light: `idx` is the light the next press turns on. */
  class TrafficLight {
    var idx: nat

    ghost predicate Valid()
      reads this
    {
      idx < |Lights|
    }

    constructor()
      ensures Valid() && idx == 0
    {
      idx := 0;
    }

    /** The Next button: light `idx`, then advance it round the three lights. */
    method Next() returns (lit: string)
      requires Valid()
      modifies this
      ensures Valid()
      ensures lit == Lights[old(idx)] && idx == Cycle(old(idx), |Lights|)
    {
      lit := Lights[idx];
      idx := Cycle(idx, |Lights|);
    }
  }

  /** From a fresh light, the k-th press lights red, yellow, green, red, ... in turn. */
  lemma LightsInTurn(k: nat)
    ensures Lights[CycleN(0, |Lights|, k)] == Lights[k % 3]
  {
    CycleNFormula(0, |Lights|, k);
  }

  const Symbols: seq<string> := ["\U{270F}\U{FE0F}", "\U{2615}\U{FE0F}", "\U{2705}", "\U{1F534}"]

  /** The work-symbols widget: `i` is the symbol the next press shows. */
  class WorkSymbols {
    var i: nat

    ghost predicate Valid()
      reads this
    {
      i < |Symbols|
    }

    constructor()
      ensures Valid() && i == 0
    {
      i := 0;
    }

    /** The Next button: show symbol `i`, then advance it round the four symbols. */
    method Next() returns (shown: string)
      requires Valid()
      modifies this
      ensures Valid()
      ensures shown == Symbols[old(i)] && i == Cycle(old(i), |Symbols|)
    {
      shown := Symbols[i];
      i := Cycle(i, |Symbols|);
    }
  }
}
