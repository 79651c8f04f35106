/**
 * Personal lockout payloads (`src/services/lockout.js`): the `HH:MM` cutoff
 * parser, the per-account entries that lock trading until the next cutoff,
 * the option merge that lets an environment setting supply the cutoff, and
 * the check made before entries are submitted.
 *
 * Instants are milliseconds since the epoch. The local time zone is a fixed
 * offset in milliseconds (local clock = instant + offset); a day is always
 * 86 400 000 ms. The ISO text of an instant is represented by the instant.
 */
module Lockout {
  import opened Wrappers
  import opened Text
  import opened JsValues
  import opened Sequences

  const UNKNOWN_LOCKOUT := 0
  const PERSONAL_LOCKOUT := 1
  const WEEKLY_TRADE_LIMIT_LOCKOUT := 2
  const DAILY_TRADE_LIMIT_LOCKOUT := 3
  const TRADE_CLOCK_LOCKOUT := 4

  const MS_PER_MINUTE := 60000
  const MS_PER_HOUR := 3600000
  const MS_PER_DAY := 86400000

  const DEFAULT_HOUR := 23
  const DEFAULT_MINUTE := 59
  const DEFAULT_REASON := "TopSignal daily lockout"
  const MISSING_USER_ID := "Missing userId. Set VITE_TS_USER_ID=12345 in .env.local or store 'tsx:userId' once."
  const NO_ENTRIES := "No lockout entries to submit."

  datatype HourMinute = HourMinute(hour: nat, minute: nat)

  /** `/^(\d{1,2}):(\d{2})$/`: one or two digits, a colon, two digits. */
  predicate IsHHMM(t: string) {
    (|t| == 4 || |t| == 5) && t[|t| - 3] == ':' && AllDigits(t[..|t| - 3]) && AllDigits(t[|t| - 2..])
  }

  /** The hour and minute one `HH:MM` match captures. */
  function Captured(t: string): HourMinute
    requires IsHHMM(t)
  {
    HourMinute(DigitsValue(t[..|t| - 3]), DigitsValue(t[|t| - 2..]))
  }

  /** The test `parseHHMM` makes on the trimmed text. */
  function ParseClock(t: string): (r: Option<HourMinute>)
    ensures r.Some? <==> IsHHMM(t) && Captured(t).hour <= 23 && Captured(t).minute <= 59
    ensures r.Some? ==> r.value == Captured(t)
  {
    if !IsHHMM(t) then None
    else
      var c := Captured(t);
      if c.hour > 23 || c.minute > 59 then None else Some(c)
  }

  /** `parseHHMM`: the hour and minute of an `H:MM` or `HH:MM` text within a day. */
  function ParseHHMM(v: JsOpt<string>): (r: Option<HourMinute>)
    ensures (v.Defined? ==> v.value == "") ==> r.None?
    ensures v.Defined? && v.value != "" ==> r == ParseClock(JsTrim(v.value))
    ensures r.Some? ==> r.value.hour <= 23 && r.value.minute <= 59
  {
    if !v.Defined? || v.value == "" then None else ParseClock(JsTrim(v.value))
  }

  /** Two decimal digits, with a leading zero below ten. */
  function TwoDigits(n: nat): string
    requires n < 100
  {
    PaddedDigits(n, 2)
  }

  lemma HHMMIsTrimmed(t: string)
    requires IsHHMM(t)
    ensures JsTrim(t) == t
  {
    assert t[..|t| - 3][0] == t[0];
    assert t[|t| - 2..][1] == t[|t| - 1];
    TrimFixedPoint(t, IsJsSpace);
  }

  lemma ClockOfParts(h: string, m: string)
    requires 1 <= |h| <= 2 && AllDigits(h) && |m| == 2 && AllDigits(m)
    ensures IsHHMM(h + ":" + m) && Captured(h + ":" + m) == HourMinute(DigitsValue(h), DigitsValue(m))
  {
    var t := h + ":" + m;
    assert t[..|t| - 3] == h;
    assert t[|t| - 2..] == m;
  }

  lemma ShortNumber(n: nat)
    requires n < 100
    ensures |NatToString(n)| <= 2
  {
    if n >= 10 {
      assert NatToString(n) == NatToString(n / 10) + [DigitChar(n % 10)];
    }
  }

  /** Any time of day written `HH:MM` or `H:MM` parses back to itself. */
  lemma ParseHHMMRoundTrip(hour: nat, minute: nat, padded: bool)
    requires hour <= 23 && minute <= 59
    ensures var h := if padded then TwoDigits(hour) else NatToString(hour);
            ParseHHMM(Defined(h + ":" + TwoDigits(minute))) == Some(HourMinute(hour, minute))
  {
    var h := if padded then TwoDigits(hour) else NatToString(hour);
    ShortNumber(hour);
    ClockOfParts(h, TwoDigits(minute));
    HHMMIsTrimmed(h + ":" + TwoDigits(minute));
  }

  /** The options `buildTodayLockouts` destructures; each may be absent. */
  datatype LockoutOptions = LockoutOptions(
    hour: JsOpt<int>, minute: JsOpt<int>, reason: JsOpt<string>, shouldLiquidate: JsOpt<bool>)

  /** The `PersonalLockoutModel` payload for one account. */
  datatype LockoutEntry = LockoutEntry(
    tradingAccountId: int, userId: int, reason: JsOpt<string>, shouldLiquidate: bool,
    createdAt: int, tradeDay: int, startsAt: int, expiresAt: int, lockoutType: int)

  /** A destructuring default: it replaces `undefined` only. */
  function WithDefault<T>(v: JsOpt<T>, default: T): JsOpt<T> {
    if v.Undefined? then Defined(default) else v
  }

  /** `Number(v)` for an hour or minute argument of `setHours` (`null` is 0). */
  function ClockNumber(v: JsOpt<int>): int {
    if v.Defined? then v.value else 0
  }

  /** `Boolean(v)` */
  function Truthy(v: JsOpt<bool>): bool {
    v.Defined? && v.value
  }

  /** The start of the local day that contains `instant`. */
  function LocalDayStart(instant: int, offset: int): (r: int)
    ensures r <= instant < r + MS_PER_DAY
    ensures (r + offset) % MS_PER_DAY == 0
  {
    ((instant + offset) / MS_PER_DAY) * MS_PER_DAY - offset
  }

  /**
   * The instant the lockout ends: today's local `hour:minute`, or the same clock time
   * tomorrow when that is not after `now`.
   */
  function LockoutTarget(now: int, hour: int, minute: int, offset: int): (r: int)
    ensures (r + offset - (hour * MS_PER_HOUR + minute * MS_PER_MINUTE)) % MS_PER_DAY == 0
    ensures hour * MS_PER_HOUR + minute * MS_PER_MINUTE >= 0 ==> r > now
  {
    var today := LocalDayStart(now, offset) + hour * MS_PER_HOUR + minute * MS_PER_MINUTE;
    if today <= now then today + MS_PER_DAY else today
  }

  /** For a clock time within the day, the target is after `now` and at most a day later. */
  lemma LockoutTargetIsNext(now: int, hour: int, minute: int, offset: int)
    requires 0 <= hour * MS_PER_HOUR + minute * MS_PER_MINUTE < MS_PER_DAY
    ensures var target := LockoutTarget(now, hour, minute, offset);
            now < target <= now + MS_PER_DAY
            && (target + offset) % MS_PER_DAY == hour * MS_PER_HOUR + minute * MS_PER_MINUTE
  {
    var start := LocalDayStart(now, offset);
    var clock := hour * MS_PER_HOUR + minute * MS_PER_MINUTE;
    var target := LockoutTarget(now, hour, minute, offset);
    var d := (start + offset) / MS_PER_DAY;
    assert start + offset == d * MS_PER_DAY;
    if start + clock <= now {
      assert target + offset == (d + 1) * MS_PER_DAY + clock;
    } else {
      assert target + offset == d * MS_PER_DAY + clock;
    }
  }

  /**
   * `buildTodayLockouts` at instant `now`: the cutoff is set on a copy of `now` and moved
   * a day on when it has passed; every account gets a Personal lockout from `now` to it.
   */
  method BuildTodayLockouts(userId: int, accountIds: seq<int>, opts: LockoutOptions, now: int, offset: int)
    returns (entries: seq<LockoutEntry>)
    ensures |entries| == |accountIds|
    ensures var hour := ClockNumber(WithDefault(opts.hour, DEFAULT_HOUR));
            var minute := ClockNumber(WithDefault(opts.minute, DEFAULT_MINUTE));
            forall k :: 0 <= k < |entries| ==>
              entries[k] == LockoutEntry(accountIds[k], userId, WithDefault(opts.reason, DEFAULT_REASON),
                                         Truthy(opts.shouldLiquidate), now, now, now,
                                         LockoutTarget(now, hour, minute, offset), PERSONAL_LOCKOUT)
  {
    var hour := ClockNumber(WithDefault(opts.hour, DEFAULT_HOUR));
    var minute := ClockNumber(WithDefault(opts.minute, DEFAULT_MINUTE));
    var reason := WithDefault(opts.reason, DEFAULT_REASON);
    var shouldLiquidate := Truthy(opts.shouldLiquidate);
    var target := now;
    target := LocalDayStart(target, offset) + hour * MS_PER_HOUR + minute * MS_PER_MINUTE;
    if target <= now {
      target := target + MS_PER_DAY;
    }
    var createdAt := now;
    var entry := (accountId: int) =>
      LockoutEntry(accountId, userId, reason, shouldLiquidate, createdAt, createdAt, createdAt,
                   target, PERSONAL_LOCKOUT);
    entries := Map(accountIds, entry);
  }

  /**
   * `finalOpts` of `buildLockoutsForToday`: the environment's `HH:MM`, when it parses,
   * fills the hour and minute only if neither was given.
   */
  function MergedOptions(opts: LockoutOptions, envTime: JsOpt<string>): (r: LockoutOptions)
    ensures r.reason == opts.reason && r.shouldLiquidate == opts.shouldLiquidate
    ensures !(opts.hour.IsNullish() && opts.minute.IsNullish()) ==> r == opts
    ensures opts.hour.IsNullish() && opts.minute.IsNullish() && ParseHHMM(envTime).Some?
            ==> r.hour == Defined(ParseHHMM(envTime).value.hour as int)
                && r.minute == Defined(ParseHHMM(envTime).value.minute as int)
    ensures ParseHHMM(envTime).None? ==> r == opts
  {
    if opts.hour.IsNullish() && opts.minute.IsNullish() then
      match ParseHHMM(envTime)
      case Some(t) => opts.(hour := Defined(t.hour as int), minute := Defined(t.minute as int))
      case None => opts
    else opts
  }

  /**
   * `buildLockoutsForToday`, given what `resolveUserId` found: without a user id it fails;
   * otherwise the entries for the merged options.
   */
  method BuildLockoutsForToday(accountIds: seq<int>, opts: LockoutOptions, userId: Option<int>,
                               envTime: JsOpt<string>, now: int, offset: int)
    returns (r: Result<seq<LockoutEntry>, string>)
    ensures r.Failure? <==> userId.None? || userId.value == 0
    ensures r.Failure? ==> r.error == MISSING_USER_ID
    ensures r.Success? ==> |r.value| == |accountIds|
    ensures r.Success? ==> var merged := MergedOptions(opts, envTime);
            var hour := ClockNumber(WithDefault(merged.hour, DEFAULT_HOUR));
            var minute := ClockNumber(WithDefault(merged.minute, DEFAULT_MINUTE));
            forall k :: 0 <= k < |r.value| ==>
              r.value[k] == LockoutEntry(accountIds[k], userId.value, WithDefault(merged.reason, DEFAULT_REASON),
                                         Truthy(merged.shouldLiquidate), now, now, now,
                                         LockoutTarget(now, hour, minute, offset), PERSONAL_LOCKOUT)
    ensures r.Success? ==> forall k :: 0 <= k < |r.value| ==>
              r.value[k].reason == WithDefault(opts.reason, DEFAULT_REASON)
              && r.value[k].shouldLiquidate == Truthy(opts.shouldLiquidate)
  {
    if userId.None? || userId.value == 0 {
      return Failure(MISSING_USER_ID);
    }
    var finalOpts := MergedOptions(opts, envTime);
    var entries := BuildTodayLockouts(userId.value, accountIds, finalOpts, now, offset);
    return Success(entries);
  }

  /** With no cutoff in the options or the environment, the lockout ends at 23:59 local time. */
  lemma DefaultCutoffIs2359(opts: LockoutOptions, envTime: JsOpt<string>)
    requires opts.hour.Undefined? && opts.minute.Undefined? && ParseHHMM(envTime).None?
    ensures var merged := MergedOptions(opts, envTime);
            ClockNumber(WithDefault(merged.hour, DEFAULT_HOUR)) == 23
            && ClockNumber(WithDefault(merged.minute, DEFAULT_MINUTE)) == 59
  {
  }

  /** The check `addPersonalLockouts` makes before posting: a non-empty array. */
  function CheckLockoutEntries(entries: Option<seq<LockoutEntry>>): (r: Result<seq<LockoutEntry>, string>)
    ensures r.Success? <==> entries.Some? && |entries.value| > 0
    ensures r.Success? ==> r.value == entries.value
    ensures r.Failure? ==> r.error == NO_ENTRIES
  {
    if entries.None? || |entries.value| == 0 then Failure(NO_ENTRIES) else Success(entries.value)
  }
}
