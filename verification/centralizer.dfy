/** The credential-expiry tracker of `centralizer.py`: deciding whether the
    stored refresh-token expiry has passed, and stamping a new expiry one
    hour ahead as a `KEY=value` line appended to the `.env` text.

    The environment lookup, the clock and the file are parameters: the stored
    expiry is what `os.getenv` returned, `now` is what `datetime.now()`
    returned, and the `.env` file is its text before and after the append. */
module Centralizer {
  import opened Results
  import opened DateTimes
  import opened StampCodec

  /** The `.env` key under which the expiry is stored. */
  const ExpirationKey: string := "REFRESH_TOKEN_EXPIRATION"

  /** `is_refresh_token_expired()`: an absent or empty stored expiry counts
      as expired without being parsed; otherwise the expiry is parsed with
      the stamp pattern (a malformed one is the `ValueError` `strptime`
      raises) and the token is expired once `now` has reached it. */
  function IsRefreshTokenExpired(stored: Option<string>, now: DateTime): (r: Result<bool, StampError>)
    requires Valid(now)
    ensures stored.None? || stored == Some("") ==> r == Success(true)
    ensures stored.Some? && stored.value != "" && Parse(stored.value).Failure?
      ==> r == Failure(Parse(stored.value).error)
    ensures stored.Some? && stored.value != "" && Parse(stored.value).Success?
      ==> r == Success(ToMicros(now) >= ToMicros(Parse(stored.value).value))
  {
    if stored.None? || stored.value == "" then Success(true)
    else
      var expiry :- Parse(stored.value);
      BeforeIsEarlier(now, expiry);
      Success(AtOrAfter(now, expiry))
  }

  /** `(datetime.now() + timedelta(hours=1)).strftime(...)`: the stamp of the
      instant one hour after `now`, to the whole second. Fails with the
      `OverflowError` of date arithmetic when that instant is past year 9999. */
  function NewExpiration(now: DateTime): (r: Result<string, Overflow>)
    requires Valid(now)
    ensures r.Failure? <==> ToMicros(now) + MicrosPerHour > ToMicros(Latest)
    ensures r.Success? ==> IsCanonical(r.value) && Parse(r.value).Success?
    ensures r.Success? ==>
      ToMicros(Parse(r.value).value) == ToMicros(now) - now.microsecond + MicrosPerHour
  {
    var later :- AddHour(now);
    ParseFormat(later);
    Success(Format(later))
  }

  /** The line the update writes: `REFRESH_TOKEN_EXPIRATION=<stamp>\n`. */
  function EntryLine(stamp: string): string {
    ExpirationKey + "=" + stamp + "\n"
  }

  /** Position of the first `c` in `s`, if any. */
  function FirstIndex(s: string, c: char): (r: Option<nat>)
    ensures r.None? <==> c !in s
    ensures r.Some? ==> r.value < |s| && s[r.value] == c && c !in s[..r.value]
    decreases |s|
  {
    if |s| == 0 then None
    else if s[0] == c then Some(0)
    else
      match FirstIndex(s[1..], c)
      case None => None
      case Some(i) =>
        assert s[..i + 1] == [s[0]] + s[1..][..i];
        Some(i + 1)
  }

  /** Reads one newline-terminated `KEY=value` line back into its key and
      value: the key is the text before the first `=`. */
  function SplitEntry(line: string): (r: Option<(string, string)>)
    ensures r.Some? ==> line == r.value.0 + "=" + r.value.1 + "\n" && '=' !in r.value.0
  {
    if |line| == 0 || line[|line| - 1] != '\n' then None
    else
      var body := line[..|line| - 1];
      match FirstIndex(body, '=')
      case None => None
      case Some(k) =>
        assert line == body[..k] + "=" + body[k + 1..] + "\n";
        Some((body[..k], body[k + 1..]))
  }

  /** `update_refresh_token_expiration()` on the `.env` text `env`: appends
      the text `REFRESH_TOKEN_EXPIRATION=<stamp>\n`, with the stamp of `now`
      plus one hour, after everything already in the file. */
  function UpdateRefreshTokenExpiration(env: string, now: DateTime): (r: Result<string, Overflow>)
    requires Valid(now)
    ensures r.Failure? <==> ToMicros(now) + MicrosPerHour > ToMicros(Latest)
    ensures r.Success? ==> |r.value| > |env| && r.value[..|env|] == env
    ensures r.Success? ==> var added := r.value[|env|..];
      && added[|added| - 1] == '\n' && '\n' !in added[..|added| - 1]
      && SplitEntry(added) == Some((ExpirationKey, NewExpiration(now).value))
  {
    var stamp :- NewExpiration(now);
    EntryLineShape(stamp);
    var added := EntryLine(stamp);
    assert (env + added)[|env|..] == added;
    Success(env + added)
  }

  /** The entry line of a stamp ends in its only newline and splits back into
      the expiration key and the stamp. */
  lemma EntryLineShape(stamp: string)
    requires IsCanonical(stamp)
    ensures var line := EntryLine(stamp);
      && line[|line| - 1] == '\n' && '\n' !in line[..|line| - 1]
      && SplitEntry(line) == Some((ExpirationKey, stamp))
  {
    CanonicalAlphabet(stamp);
    var line := EntryLine(stamp);
    var body := line[..|line| - 1];
    assert body == ExpirationKey + ['='] + stamp;
    FirstIndexAfter(ExpirationKey, '=', stamp);
    assert body[..|ExpirationKey|] == ExpirationKey;
    assert body[|ExpirationKey| + 1..] == stamp;
  }

  /** The first `c` of `a + [c] + b` is the one after `a` when `a` has none. */
  lemma FirstIndexAfter(a: string, c: char, b: string)
    requires c !in a
    ensures FirstIndex(a + [c] + b, c) == Some(|a|)
  {
    var s := a + [c] + b;
    assert s[|a|] == c;
  }

  /** The file is opened for appending, and nothing is written before the
      entry. Split the old text into `prefix`, which is empty or ends in a
      newline, and an unterminated last line `tail`. The text after `prefix`
      then forms one line: `tail` followed by the entry. That line reads back
      as the key and the new stamp exactly when `tail` is empty. Otherwise
      the entry is glued onto the old last line and changes its value. */
  lemma EntryJoinsUnterminatedLine(prefix: string, tail: string, now: DateTime)
    requires Valid(now) && ToMicros(now) + MicrosPerHour <= ToMicros(Latest)
    requires |prefix| == 0 || prefix[|prefix| - 1] == '\n'
    requires '\n' !in tail
    ensures var r := UpdateRefreshTokenExpiration(prefix + tail, now);
      var line := r.value[|prefix|..];
      && r.Success? && |prefix| < |r.value| && r.value[..|prefix|] == prefix
      && line == tail + EntryLine(NewExpiration(now).value)
      && line[|line| - 1] == '\n' && '\n' !in line[..|line| - 1]
      && (SplitEntry(line) == Some((ExpirationKey, NewExpiration(now).value)) <==> tail == [])
  {
    var stamp := NewExpiration(now).value;
    assert UpdateRefreshTokenExpiration(prefix + tail, now) == Success(prefix + tail + EntryLine(stamp));
    GluedLine(prefix, tail, stamp);
  }

  /** The text-level half of `EntryJoinsUnterminatedLine`. */
  lemma GluedLine(prefix: string, tail: string, stamp: string)
    requires IsCanonical(stamp) && '\n' !in tail
    ensures var text := prefix + tail + EntryLine(stamp);
      var line := text[|prefix|..];
      && |prefix| < |text| && text[..|prefix|] == prefix
      && line == tail + EntryLine(stamp)
      && line[|line| - 1] == '\n' && '\n' !in line[..|line| - 1]
      && (SplitEntry(line) == Some((ExpirationKey, stamp)) <==> tail == [])
  {
    var added := EntryLine(stamp);
    var text := prefix + tail + added;
    assert text == prefix + (tail + added);
    var line := text[|prefix|..];
    assert line == tail + added;
    EntryLineShape(stamp);
    assert line[..|line| - 1] == tail + added[..|added| - 1];
    if SplitEntry(line) == Some((ExpirationKey, stamp)) {
      assert |line| == |added|;
    }
  }

  /** A freshly stamped expiry is judged expired at a later time exactly when
      that time has reached `now` plus one hour, truncated to the second. */
  lemma StampedExpiryWindow(now: DateTime, later: DateTime)
    requires Valid(now) && Valid(later) && ToMicros(now) + MicrosPerHour <= ToMicros(Latest)
    ensures IsRefreshTokenExpired(Some(NewExpiration(now).value), later)
      == Success(ToMicros(later) >= ToMicros(now) - now.microsecond + MicrosPerHour)
  {
  }

  /** An expiry stamped at `now` is not expired at `now`. */
  lemma FreshStampNotExpired(now: DateTime)
    requires Valid(now) && ToMicros(now) + MicrosPerHour <= ToMicros(Latest)
    ensures IsRefreshTokenExpired(Some(NewExpiration(now).value), now) == Success(false)
  {
  }
}
