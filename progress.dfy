/**
 * The pull-progress record shared by the server-side store and the
 * browser-side download list (src/app.rs), and the rule that folds one
 * parsed NDJSON progress line from Ollama's pull endpoint into it.
 */
module Progress {
  import opened Wrappers
  import opened Strings

  /**
   * One model download as the front end sees it. `percent` is the source's
   * f32, held here as an exact real; `lastUpdate` is a clock reading given
   * by the caller.
   */
  datatype PullProgress = PullProgress(
    model: string,
    status: string,
    percent: real,
    done: bool,
    error: Option<string>,
    bytesDownloaded: nat,
    speed: string,
    lastUpdate: int)

  /** The entry a pull starts from, on the server and in the browser. */
  function Starting(model: string): (p: PullProgress)
    ensures p.model == model && !p.done && p.error == None && p.percent == 0.0
  {
    PullProgress(model, "Starting...", 0.0, false, None, 0, "", 0)
  }

  /** The `error` member of a progress line: absent, a string, or some other JSON value. */
  datatype ErrorField = NoError | ErrorText(text: string) | ErrorOther

  /**
   * A progress line after JSON parsing: `status` is "" when missing or not a
   * string, `total` and `completed` are 0 when missing or not a u64.
   */
  datatype PullRecord = PullRecord(status: string, total: nat, completed: nat, error: ErrorField)

  /** A line ends the pull when its status is "success" or it carries any `error` member. */
  predicate IsTerminal(rec: PullRecord)
  {
    rec.status == "success" || !rec.error.NoError?
  }

  /** The error message a line carries: only a string `error` member counts. */
  function ErrorOf(rec: PullRecord): (e: Option<string>)
    ensures e.Some? <==> rec.error.ErrorText?
    ensures rec.error.ErrorText? ==> e == Some(rec.error.text)
  {
    if rec.error.ErrorText? then Some(rec.error.text) else None
  }

  const KB: nat := 1024
  const MB: nat := KB * 1024
  const GB: nat := MB * 1024

  /** The unit `format_bytes` prints a count in. */
  datatype ByteUnit = Bytes | KiB | MiB | GiB

  function UnitSize(u: ByteUnit): (n: nat)
    ensures n >= 1
  {
    match u
    case Bytes => 1
    case KiB => KB
    case MiB => MB
    case GiB => GB
  }

  function UnitLabel(u: ByteUnit): string
  {
    match u
    case Bytes => "B"
    case KiB => "KB"
    case MiB => "MB"
    case GiB => "GB"
  }

  /** The threshold choice of `format_bytes`. */
  function UnitFor(bytes: nat): ByteUnit
  {
    if bytes >= GB then GiB else if bytes >= MB then MiB else if bytes >= KB then KiB else Bytes
  }

  /**
   * The chosen unit is the largest one not larger than the count: the count
   * is at least one unit (when non-zero) and under 1024 units unless it is
   * already gigabytes.
   */
  lemma UnitForIsLargestFitting(bytes: nat)
    ensures bytes >= 1 ==> UnitSize(UnitFor(bytes)) <= bytes
    ensures UnitFor(bytes) != GiB ==> bytes < 1024 * UnitSize(UnitFor(bytes))
  {
  }

  function DigitChar(d: nat): (c: char)
    requires d < 10
    ensures '0' <= c <= '9'
  {
    "0123456789"[d]
  }

  function DigitValue(c: char): (d: nat)
    requires '0' <= c <= '9'
    ensures d < 10 && DigitChar(d) == c
  {
    c as int - '0' as int
  }

  /** Decimal digits of a natural number, without leading zeros. */
  function DecimalString(n: nat): (s: string)
    ensures s != []
    ensures forall i :: 0 <= i < |s| ==> '0' <= s[i] <= '9'
    ensures |s| > 1 ==> s[0] != '0'
  {
    if n < 10 then [DigitChar(n)] else DecimalString(n / 10) + [DigitChar(n % 10)]
  }

  /** Reads a string of decimal digits back as a number. */
  function ParseDecimal(s: string): nat
    requires forall i :: 0 <= i < |s| ==> '0' <= s[i] <= '9'
  {
    if s == [] then 0 else 10 * ParseDecimal(s[..|s| - 1]) + DigitValue(s[|s| - 1])
  }

  /** Printing a count and reading it back gives the count. */
  lemma {:induction false} DecimalRoundTrip(n: nat)
    ensures ParseDecimal(DecimalString(n)) == n
  {
    var s := DecimalString(n);
    if n >= 10 {
      assert s[..|s| - 1] == DecimalString(n / 10);
      DecimalRoundTrip(n / 10);
    }
  }

  /**
   * `t` tenths is `bytes / unit` rounded to the nearest tenth, an exact tie
   * going to the even digit.
   */
  predicate NearestTenths(t: nat, bytes: nat, unit: nat)
  {
    && (2 * t - 1) * unit <= 20 * bytes <= (2 * t + 1) * unit
    && (20 * bytes == (2 * t + 1) * unit || 20 * bytes == (2 * t - 1) * unit ==> t % 2 == 0)
  }

  lemma MulCancel(a: int, b: int, u: int)
    requires u >= 1 && a * u <= b * u
    ensures a <= b
  {
    assert (a - b) * u == a * u - b * u;
  }

  /** The rounding rule leaves no choice: at most one count of tenths satisfies it. */
  lemma NearestTenthsUnique(t1: nat, t2: nat, bytes: nat, unit: nat)
    requires unit >= 1
    requires NearestTenths(t1, bytes, unit) && NearestTenths(t2, bytes, unit)
    ensures t1 == t2
  {
    MulCancel(2 * t2 - 1, 2 * t1 + 1, unit);
    MulCancel(2 * t1 - 1, 2 * t2 + 1, unit);
  }

  /** `bytes / unit` in tenths, rounded as `{:.1}` rounds: to the nearest tenth, ties to even. */
  function Tenths(bytes: nat, unit: nat): (t: nat)
    requires unit >= 1
    ensures NearestTenths(t, bytes, unit)
  {
    var q := (bytes * 10) / unit;
    var rem := (bytes * 10) % unit;
    TenthsRound(bytes, unit, q, rem);
    if 2 * rem > unit || (2 * rem == unit && q % 2 == 1) then q + 1 else q
  }

  /** Rounding the quotient `q` with remainder `rem` gives the nearest tenth, ties to even. */
  lemma TenthsRound(bytes: nat, unit: nat, q: nat, rem: nat)
    requires unit >= 1 && bytes * 10 == q * unit + rem && rem < unit
    ensures NearestTenths(if 2 * rem > unit || (2 * rem == unit && q % 2 == 1) then q + 1 else q, bytes, unit)
  {
    TenthsExpand(q, unit);
  }

  /** The products the rounding rule compares, written as multiples of `q * unit`. */
  lemma TenthsExpand(q: int, unit: int)
    ensures (2 * q - 1) * unit == 2 * (q * unit) - unit
    ensures (2 * q + 1) * unit == 2 * (q * unit) + unit
    ensures (2 * (q + 1) - 1) * unit == 2 * (q * unit) + unit
    ensures (2 * (q + 1) + 1) * unit == 2 * (q * unit) + 3 * unit
  {
  }

  /**
   * `format_bytes`: a byte count as "<n> B" below one KB, otherwise as the
   * count in the largest fitting unit with one decimal ("1.5 MB").
   */
  function FormatBytes(bytes: nat): (r: string)
    ensures r != []
  {
    var u := UnitFor(bytes);
    if u == Bytes then DecimalString(bytes) + " B"
    else
      var t := Tenths(bytes, UnitSize(u));
      DecimalString(t / 10) + "." + [DigitChar(t % 10)] + " " + UnitLabel(u)
  }

  predicate IsDigits(s: string)
  {
    forall i :: 0 <= i < |s| ==> '0' <= s[i] <= '9'
  }

  lemma DigitRoundTrip(d: nat)
    requires d < 10
    ensures DigitValue(DigitChar(d)) == d
  {
    assert "0123456789"[0] == '0' && "0123456789"[1] == '1' && "0123456789"[2] == '2';
    assert "0123456789"[3] == '3' && "0123456789"[4] == '4' && "0123456789"[5] == '5';
    assert "0123456789"[6] == '6' && "0123456789"[7] == '7' && "0123456789"[8] == '8';
    assert "0123456789"[9] == '9';
  }

  /**
   * Reading the text back: it ends in a space and the unit's label; below one
   * KB the number before it is the byte count itself; otherwise it is a
   * whole part, a point and one digit which, read as tenths of the unit, is
   * the count divided by the unit rounded to the nearest tenth.
   */
  lemma FormatBytesReadsBack(bytes: nat)
    ensures var r := FormatBytes(bytes); var u := UnitFor(bytes); var tail := " " + UnitLabel(u);
      && |r| > |tail| && r[|r| - |tail|..] == tail
      && (u == Bytes ==> var num := r[..|r| - |tail|]; IsDigits(num) && ParseDecimal(num) == bytes)
      && (u != Bytes ==>
        var k := |r| - |tail| - 2;
        && k > 0 && r[k] == '.' && IsDigits(r[..k]) && '0' <= r[k + 1] <= '9'
        && NearestTenths(ParseDecimal(r[..k]) * 10 + DigitValue(r[k + 1]), bytes, UnitSize(u)))
  {
    var r := FormatBytes(bytes);
    var u := UnitFor(bytes);
    var tail := " " + UnitLabel(u);
    if u == Bytes {
      var ds := DecimalString(bytes);
      assert r == ds + tail;
      NumberLayout(ds, tail);
      DecimalRoundTrip(bytes);
    } else {
      var t := Tenths(bytes, UnitSize(u));
      var ds := DecimalString(t / 10);
      var c := DigitChar(t % 10);
      assert r == ds + "." + [c] + tail;
      TenthsLayout(ds, c, tail);
      DecimalRoundTrip(t / 10);
      DigitRoundTrip(t % 10);
      assert (t / 10) * 10 + t % 10 == t;
    }
  }

  /** Where the parts of "<digits> <unit>" sit. */
  lemma NumberLayout(ds: string, tail: string)
    ensures var r := ds + tail; r[..|r| - |tail|] == ds && r[|r| - |tail|..] == tail
  {
  }

  /** Where the parts of "<digits>.<digit> <unit>" sit. */
  lemma TenthsLayout(ds: string, c: char, tail: string)
    ensures var r := ds + "." + [c] + tail;
      && |ds| == |r| - |tail| - 2 && r[..|ds|] == ds && r[|ds|] == '.' && r[|ds| + 1] == c
      && r[|r| - |tail|..] == tail
  {
  }

  /** The byte-count text the store shows for a line with both counts set. */
  function SpeedText(completed: nat, total: nat): (r: string)
    ensures r != []
  {
    FormatBytes(completed) + " / " + FormatBytes(total)
  }

  /** `completed / total * 100`, exactly. */
  function Percent(completed: nat, total: nat): (r: real)
    requires total > 0
    ensures 0.0 <= r
    ensures completed <= total ==> r <= 100.0
  {
    (completed as real / total as real) * 100.0
  }

  function PrevPercent(prev: Option<PullProgress>): real
  {
    if prev.Some? then prev.value.percent else 0.0
  }

  function PrevSpeed(prev: Option<PullProgress>): string
  {
    if prev.Some? then prev.value.speed else ""
  }

  /**
   * The entry stored after one parsed progress line for `model`, given the
   * entry it replaces (if any) and the clock reading `now`.
   */
  function Applied(prev: Option<PullProgress>, model: string, rec: PullRecord, now: int): (p: PullProgress)
    ensures p.model == model && p.bytesDownloaded == rec.completed && p.lastUpdate == now
    ensures p.done <==> rec.status == "success" || !rec.error.NoError?
    ensures p.error.Some? <==> rec.error.ErrorText?
    ensures p.error == ErrorOf(rec)
    ensures p.done && p.error.None? ==> p.status == "Complete" && p.percent == 100.0
    ensures !(p.done && p.error.None?) ==> p.status == rec.status
    ensures !(p.done && p.error.None?) && rec.total == 0 ==> p.percent == PrevPercent(prev)
    ensures !(p.done && p.error.None?) && rec.total > 0 ==>
      p.percent == Percent(rec.completed, rec.total)
    ensures rec.total > 0 && rec.completed > 0 ==> p.speed != [] && p.speed == SpeedText(rec.completed, rec.total)
    ensures rec.total == 0 || rec.completed == 0 ==> p.speed == PrevSpeed(prev)
  {
    var percent := if rec.total > 0 then Percent(rec.completed, rec.total) else PrevPercent(prev);
    var prevSpeed := PrevSpeed(prev);
    var speed := if rec.total > 0 && rec.completed > 0 then SpeedText(rec.completed, rec.total)
                 else if prevSpeed != [] then prevSpeed
                 else "";
    var done := IsTerminal(rec);
    var error := ErrorOf(rec);
    var clean := done && error.None?;
    PullProgress(model, if clean then "Complete" else rec.status, if clean then 100.0 else percent,
                 done, error, rec.completed, speed, now)
  }

  /** Applying the same line twice stores what applying it once stores. */
  lemma AppliedIdempotent(prev: Option<PullProgress>, model: string, rec: PullRecord, now: int)
    ensures Applied(Some(Applied(prev, model, rec, now)), model, rec, now) == Applied(prev, model, rec, now)
  {
  }

  /**
   * A cancellation is not final: the next non-terminal line for the model
   * replaces the cancelled entry with a running one.
   */
  lemma CancelOverwrittenByNextLine(prev: PullProgress, model: string, rec: PullRecord, now: int)
    requires prev.status == "Cancelled" && prev.done
    requires !IsTerminal(rec)
    ensures !Applied(Some(prev), model, rec, now).done
    ensures Applied(Some(prev), model, rec, now).status == rec.status
  {
  }

  /**
   * Every parsed line of one chunk applied in order (lines that did not parse
   * are `None` and skipped); `None` only when there was no entry and no line parsed.
   */
  function ApplyLines(prev: Option<PullProgress>, model: string, lines: seq<Option<PullRecord>>, now: int): (r: Option<PullProgress>)
    ensures r != prev ==> r.Some? && r.value.model == model && r.value.lastUpdate == now
    decreases |lines|
  {
    if lines == [] then prev
    else
      var before := ApplyLines(prev, model, lines[..|lines| - 1], now);
      var last := lines[|lines| - 1];
      if last.Some? then Some(Applied(before, model, last.value, now)) else before
  }

  /** The fold over one more line of the chunk. */
  lemma ApplyLinesStep(prev: Option<PullProgress>, model: string, lines: seq<Option<PullRecord>>, i: nat, now: int)
    requires i < |lines|
    ensures var before := ApplyLines(prev, model, lines[..i], now);
      ApplyLines(prev, model, lines[..i + 1], now)
        == if lines[i].Some? then Some(Applied(before, model, lines[i].value, now)) else before
  {
    assert lines[..i + 1][..i] == lines[..i];
  }

  /** Folding lines never loses an entry that was there. */
  lemma {:induction false} ApplyLinesKeepsEntry(prev: Option<PullProgress>, model: string, lines: seq<Option<PullRecord>>, now: int)
    requires prev.Some?
    ensures ApplyLines(prev, model, lines, now).Some?
    decreases |lines|
  {
    if lines != [] {
      ApplyLinesKeepsEntry(prev, model, lines[..|lines| - 1], now);
    }
  }

  /** The last line of a chunk that parsed, if any. */
  function LastParsed(lines: seq<Option<PullRecord>>): Option<PullRecord>
    decreases |lines|
  {
    if lines == [] then None
    else if lines[|lines| - 1].Some? then lines[|lines| - 1]
    else LastParsed(lines[..|lines| - 1])
  }

  /**
   * After a chunk, the entry's `done`, `error` and `status` are decided by the
   * last line that parsed; a chunk where nothing parsed leaves the entry as it was.
   */
  lemma {:induction false} LastParsedDecides(prev: Option<PullProgress>, model: string, lines: seq<Option<PullRecord>>, now: int)
    ensures LastParsed(lines).None? ==> ApplyLines(prev, model, lines, now) == prev
    ensures LastParsed(lines).Some? ==>
      var p := ApplyLines(prev, model, lines, now);
      var rec := LastParsed(lines).value;
      && p.Some? && p.value.model == model
      && (p.value.done <==> IsTerminal(rec))
      && p.value.error == ErrorOf(rec)
      && p.value.status == (if IsTerminal(rec) && ErrorOf(rec).None? then "Complete" else rec.status)
    decreases |lines|
  {
    if lines != [] && lines[|lines| - 1].None? {
      LastParsedDecides(prev, model, lines[..|lines| - 1], now);
    }
  }
}
