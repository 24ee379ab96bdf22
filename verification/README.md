# Credential-expiry tracker and authorization-code flow, modelled in Dafny

This project models the two scripts of K8sOptimizeBot that contain its
credential-lifecycle logic:

- `centralizer.py` decides whether the stored refresh-token expiry
  (`REFRESH_TOKEN_EXPIRATION` in `.env`) has passed. When it has, it runs the
  collection script, then appends a new expiry one hour ahead. It always
  then runs the main script, unless an exception escapes first.
- `authorize_code.py` builds the Azure AD authority from the tenant id. It
  asks MSAL for an authorization URL, reads the code the user pastes back,
  redeems that code, and returns the `refresh_token` of the response.

Everything with an effect is a parameter:

- The value `os.getenv` returned is an `Option<string>`.
- Each `datetime.now()` reading is a `DateTime` input. The expiry check and
  the update read the clock at different moments, so they get separate
  inputs.
- The `.env` file is its text before and after the append.
- Each `subprocess.run` is a `ProcessOutcome`.
- MSAL and `input()` are total functions in an `Msal` record. A `Failure`
  result stands for an exception they raised.

Modules, leaf first:

- `Results` (`results.dfy`): `Option` and failure-compatible `Result`.
- `Calendar` (`calendar.dfy`): the proleptic Gregorian calendar with Python's
  day ordinals. The day after a date has the next ordinal, and ordinals order
  dates exactly as the calendar does.
- `DateTimes` (`datetimes.dfy`): naive `datetime` values down to the
  microsecond. Their field-by-field comparison is Python's `<`. `ToMicros`
  places them on a timeline, and the two orders are proved to agree.
  `AddHour` is `+ timedelta(hours=1)`, including the `OverflowError` past
  `datetime.max`.
- `StampCodec` (`stamp_codec.dfy`): the shared pattern `"%Y-%m-%d %H:%M:%S"`.
  - The writer is `strftime`. It always produces the 19-character form
    `YYYY-MM-DD hh:mm:ss` and drops microseconds.
  - The reader is `strptime`, modelled as CPython's `_strptime` behaves.
    `%m`, `%d`, `%H`, `%M` and `%S` accept one or two digits. `%d` also
    accepts a space and a digit. The literal space matches any run of
    whitespace.
  - The reader's errors are: no match; "unconverted data remains"; and a
    field out of range (year 0, a day past the end of its month, or second
    60 or 61).
  - Both round trips are proved: writer then reader, and reader then writer
    on the canonical form.
- `Centralizer` (`centralizer.dfy`): `is_refresh_token_expired` and
  `update_refresh_token_expiration`.
- `RunPlan` (`run_plan.dfy`): `execute_script` and the `__main__` block.
  The `.env` text the collection script leaves behind is an input of its
  own, because that script is a separate process that may write the file.
  The block is an interpreter
  over the list of planned steps. It records:
  - the steps begun;
  - the final `.env` text;
  - the scripts whose non-zero exit was reported and then ignored;
  - the exception that ended the run, if any.
- `AuthorizeCode` (`authorize_code.dfy`): `MSALAuthenticator.__init__` and
  `get_refresh_token`. The result records the requests made.

The model follows the code as written:

- A malformed stored expiry raises `ValueError`; it is not treated as
  "absent". That exception ends the run before any step, and it recurs on
  every run until `.env` is repaired.
- `collect_info.py` is written to store the new token with `set_key`
  (collect_info.py:20, :47). As written it stops at the undefined name
  `webdrive` (collect_info.py:29, outside its `try`), exits non-zero and
  leaves `.env` unchanged. The text it leaves is therefore an input. The
  centralizer then appends the expiry to that text, in a separate write.
- The append writes `REFRESH_TOKEN_EXPIRATION=<stamp>\n` and nothing before
  it. When `.env` does not end in a newline, the entry is glued onto the old
  last line. That line's value then changes, and the new stamp does not
  stand on a line of its own (`Centralizer.EntryJoinsUnterminatedLine`).
- Nothing exchanges the refresh token for an access token, and no step is
  retried.
- `execute_script` catches only `CalledProcessError`. A non-zero exit of the
  collection script is reported and then ignored, so the expiry is renewed
  even when nothing was collected (`RunPlan.ExpiredRunsCollectUpdateMain`,
  `RunPlan.ExitCodesNeverStopTheRun`). An interpreter that cannot be launched
  raises `OSError`, which ends the run.

## Model

| member | source | states |
|---|---|---|
| `Centralizer.IsRefreshTokenExpired` | centralizer.py:15-27 | An absent or empty stored expiry is "expired" and is never parsed. A value the reader rejects gives the reader's error, not a verdict. Otherwise the token is expired exactly when `now` is at or past the parsed expiry on the microsecond timeline, so `now == expiry` counts as expired |
| `StampCodec.Parse` | centralizer.py:25 | Whatever the reader accepts is a valid date-time with zero microseconds. It is accepted only if the pattern's regular expression matched the whole text. If the match succeeded and the value is still rejected, the error is "field out of range" |
| `StampCodec.Format` | centralizer.py:34 | The writer's output always has the fixed 19-character shape, and its positional fields are the date-time's year, month, day, hour, minute and second |
| `StampCodec.ParseFormat` | centralizer.py:25-34 | Reading back what the writer wrote gives the same date-time truncated to the whole second, because writer and reader share one pattern |
| `StampCodec.FormatParse` | centralizer.py:25-34 | A 19-character stamp whose fields name a real date-time is accepted by the reader, and it is exactly what the writer produces for the parsed value |
| `StampCodec.CanonicalAccepted` | centralizer.py:25 | A stamp of the fixed shape is accepted exactly when its fields name a real date-time (a real calendar day, hour up to 23, minute and second up to 59) |
| `StampCodec.TrailingTextRejected` | centralizer.py:25 | A stamp followed by any further text (a space, a carriage return) is rejected |
| `StampCodec.SecondGroup` | centralizer.py:25 | After two digits, the seconds group matches only when nothing follows. It reads their value, and every value up to 59 is matched |
| `StampCodec.DateStage` | centralizer.py:25 | On text starting `YYYY-MM-DD` and a non-digit, the date groups are the positional fields. They match exactly when the month is 1-12 and the day 1-31 |
| `StampCodec.ClockStage` | centralizer.py:25 | On text starting `hh:mm:ss`, nothing may follow, the clock groups are the positional fields, and in-range fields match |
| `StampCodec.ScanStamp` | centralizer.py:25 | On text that starts with a fixed-shape stamp, the regular expression's groups are the stamp's positional fields. Nothing may follow the stamp, and in-range fields always match |
| `DateTimes.BeforeIsEarlier` | centralizer.py:27 | Python's field-by-field comparison of naive date-times agrees with the microsecond timeline in both directions, and equal timeline positions mean equal date-times |
| `DateTimes.AddHour` | centralizer.py:34 | Adding one hour moves exactly 3,600,000,000 microseconds along the timeline and gives a valid date-time. It overflows exactly when the result would pass `datetime.max` |
| `Calendar.NextDay` | centralizer.py:34 | Rolling over into the next day, month or year gives the next day ordinal. Only 9999-12-31 leaves the valid range |
| `Calendar.OrdinalOrder` | centralizer.py:27 | Day ordinals order valid dates exactly as the calendar does, and distinct dates get distinct ordinals |
| `Centralizer.NewExpiration` | centralizer.py:34 | The new stamp has the fixed shape and is readable. It names `now` plus 3600 s truncated to the whole second, and it fails exactly when that is past year 9999 |
| `Centralizer.UpdateRefreshTokenExpiration` | centralizer.py:30-37 | The `.env` text keeps all its old content as a prefix and gains exactly the suffix `REFRESH_TOKEN_EXPIRATION=<stamp>\n`. That suffix ends in its only newline and reads back as the key with the new stamp as value. It fails exactly when the new stamp overflows |
| `Centralizer.EntryJoinsUnterminatedLine` | centralizer.py:36-37 | The old text's unterminated last line and the entry together form one line. That line reads back as the key and the new stamp exactly when the old text was empty or ended in a newline |
| `Centralizer.EntryLineShape` | centralizer.py:37 | The written line contains one newline, at its end, and splits at its first `=` into the key and the stamp |
| `Centralizer.StampedExpiryWindow` | centralizer.py:25-34 | A stamp written at `now` is judged expired at a later time exactly when that time has reached `now` plus one hour, truncated to the second |
| `Centralizer.FreshStampNotExpired` | centralizer.py:25-34 | A stamp written at `now` is not expired at `now` |
| `RunPlan.ExecuteScript` | centralizer.py:41-50 | A script whose child exited returns normally, whatever its status. The status is reported as a failure exactly when it is non-zero. Only a launch failure raises |
| `RunPlan.Plan` | centralizer.py:53-62 | The main script is the last planned step and occurs nowhere else. Collection and update are planned exactly when the token is expired |
| `RunPlan.RunSteps` | centralizer.py:53-62 | The steps begun are always a prefix of the plan, and the whole plan when nothing escapes. An exception means at least one step began |
| `RunPlan.PerformRaises` | centralizer.py:41-50 | An exception a single step raises is one of its own: an update step raises only the date overflow, and a script step only the launch failure of its own script |
| `RunPlan.RunStepsStopsAtFault` | centralizer.py:53-62 | An escaping exception was raised by the last step begun, so nothing runs after the step that raised it |
| `RunPlan.Execute` | centralizer.py:54-62 | The steps begun for a verdict are a prefix of that verdict's plan, and the whole plan when nothing escapes |
| `RunPlan.ExecuteStopsAtFault` | centralizer.py:54-62 | With an exception, the run of either verdict's plan ends with the step that raised it |
| `RunPlan.Run` | centralizer.py:53-62 | A malformed stored expiry ends the run before any step and leaves `.env` alone. Otherwise the run executes the plan of the verdict |
| `RunPlan.ScriptStep` | centralizer.py:41-50 | A script step ends the run only on a launch failure, and otherwise only adds the reported non-zero exit. After the collection script exits, `.env` holds the text it left; the main script leaves `.env` alone |
| `RunPlan.UpdateStep` | centralizer.py:59 | The update step raises the date overflow exactly when the new stamp overflows, leaving `.env` as it was. Otherwise it leaves the updated `.env` text |
| `RunPlan.NotExpiredRunsMainOnly` | centralizer.py:54-62 | With an unexpired token only the main script runs, `.env` is untouched, and the run completes exactly when the interpreter launches. Otherwise the launch failure of the main script is what escapes |
| `RunPlan.ExpiredRunsCollectUpdateMain` | centralizer.py:54-62 | With an expired token the steps are collect, update, main, in that order. The run completes exactly when both scripts launch and the stamp does not overflow. `.env` then holds the text the collection script left, with the new entry appended. The reported failures are the scripts that exited non-zero |
| `RunPlan.ExpiredRunStopsAtFault` | centralizer.py:54-62 | With an expired token, an escaping exception stops the run at the step that raised it. If collection cannot launch, only it began and `.env` is untouched. If the stamp overflows, main never begins and `.env` holds the collection script's text. If main cannot launch, the new entry has already been appended |
| `RunPlan.CollectNotLaunched` | centralizer.py:54-57 | When the collection script cannot be launched, the run is exactly that one step, with `.env` untouched, nothing reported and the launch failure escaping |
| `RunPlan.UpdateOverflowed` | centralizer.py:54-59 | When the stamp overflows after collection, only collection and the update began, `.env` holds the collection script's text, and the date overflow escapes |
| `RunPlan.CollectedAndStamped` | centralizer.py:54-59 | After collection exits and the stamp fits, nothing has escaped and `.env` holds the collected text with the new entry appended |
| `RunPlan.MainNotLaunched` | centralizer.py:54-62 | When the main script cannot be launched after a successful update, all three steps began, `.env` already holds the new entry, and the launch failure escapes |
| `RunPlan.MainRunsLast` | centralizer.py:61-62 | Whichever verdict the run follows, when nothing escapes the main script has run, it ran last, and it ran once |
| `RunPlan.RunCompletes` | centralizer.py:53-62 | The run completes exactly when the stored expiry is absent, empty or readable, the main script launches, and on the expired path the collection script launches and the update's clock reading is at least an hour before the end of year 9999 |
| `RunPlan.StepsIgnoreExitCodes` | centralizer.py:46-50 | Running the same steps under exit statuses that differ begins the same steps, writes the same `.env` text, and ends the same way |
| `RunPlan.ExitCodesNeverStopTheRun` | centralizer.py:46-62 | The scripts' exit statuses never change which steps run, what is written to `.env`, or whether the run ends early |
| `AuthorizeCode.NewAuthenticator` | authorize_code.py:24-27 | Client id, tenant id and redirect URI are kept as given. The authority is the login host followed by the tenant id, which can be read back from it |
| `AuthorizeCode.AuthorityIdentifiesTenant` | authorize_code.py:27 | Two authenticators get the same authority exactly when their tenant ids are equal |
| `AuthorizeCode.DefaultScope` | authorize_code.py:47 | The scope is the client id followed by `/.default` |
| `AuthorizeCode.DefaultScopeIdentifiesClient` | authorize_code.py:59 | Two client ids give the same scope exactly when they are equal |
| `AuthorizeCode.GetRefreshToken` | authorize_code.py:30-72 | The client application is built from the client id and the authority. The URL request asks for the single scope `client_id + "/.default"` with the configured redirect URI. The code is redeemed exactly when app creation, the URL request and `input()` all return. The redemption uses the same scopes and redirect URI, and exactly the code that was read. A returned token is the response's `refresh_token` value. The exception a collaborator raised is the one that escapes, unchanged, tagged with the stage that raised it |
| `AuthorizeCode.RefreshTokenDecides` | authorize_code.py:63-68 | After redemption, the attempt succeeds exactly when the response has a `refresh_token` key. Without one it raises its fixed-message exception and returns no token; the failure records the `error_description` that is logged |
| `AuthorizeCode.RequestsFollowSettings` | authorize_code.py:39-60 | For an authenticator built from given settings, requests go to that tenant's authority with that client id. The redemption uses that client's default scope and that redirect URI |

## Left out

- `collect_info.py` and `main.py` are only run as child processes here. Each run is reduced to its outcome. Their browser automation and SDK calls are foreign libraries.
- The `.env` text that `collect_info.py` leaves behind is an input. How dotenv's `set_key` rewrites the file is not part of this model.
- Console output (`print`) and logging are not modelled, because they do not change any result.
- `StampCodec.Parse`: digits are ASCII `0`-`9` only. Python's `\d` on text also matches other Unicode decimal digits, and `int()` reads them.
- `StampCodec.Format`: the year is always zero-padded to four digits. Some platform C libraries behind older Python versions do not pad years below 1000. Such years never come from the clock.
- `Centralizer.UpdateRefreshTokenExpiration`: failures to open or write `.env` are not modelled, so the only failure is the date overflow. The file is its text, and the append is concatenation.
- Which of several appended `REFRESH_TOKEN_EXPIRATION` lines `os.getenv` returns on a later run is not modelled. That depends on the dotenv library's parsing, which is not part of this model.
- Exceptions other than those named (`KeyboardInterrupt`, out of memory) are not modelled.
- `AuthorizeCode.GetRefreshToken`: response values are text (`map<string, string>`), while a JSON token response may hold numbers. Only the `refresh_token` and `error_description` entries are read.
- MSAL's own behaviour (network calls, authority validation, URL construction) is a parameter. Only the arguments passed to it and the handling of its results are modelled.
- The `__main__` block of `authorize_code.py` only wires fixed settings into the authenticator and prints the token or logs the error. It is not modelled.
- A refresh-token-for-access-token exchange, retries with backoff, fallback on revocation, file locking and atomic writes do not exist in the code and are not invented here.
