# Reward bot for X replies and retweets: the bookkeeping and decision core

`telegramBot_ForX.py` is a Telegram bot. An admin announces a task (a post on X
and a reward); users register their X handle by sending it as a plain message;
pressing a task's "Verify" button makes the bot scrape X with a headless browser
for two pieces of evidence — a reply containing `$Broke` whose thread parent is
the task post, and a retweet of the task post — and, when both are found, records
the claim so that it cannot be made twice.

This project models the part underneath the Telegram, MongoDB and Selenium
plumbing:

- `common.dfy` — `Option` and `Result`.
- `pystr.dfy` — the Python string builtins the handlers rely on: `strip()`,
  `lstrip("@")`, `lower()` (ASCII only), `sub in s`, `split("|")`, `int()` on a
  digit string, the decimal rendering of a non-negative integer, and string
  truthiness.
- `callback.dfy` — the `verify|{task_id}|0` payload of the "Verify" button:
  `Encode` (built in `add_task`) and `Decode` (the split, tag test and `int` in
  `button`).
- `evidence.dfy` — `scrape_replies` and `check_retweet` as loop methods over an
  abstract `Web`: what a page shows (its `article` elements with their text and
  first status link, or the status links inside its articles) is a function of
  the page URL. The stored-cookie flag and the two optional login credentials
  are parameters; the session gate at the head of each scan is
  `SessionAvailable`.
- `bot.dfy` — module `Handlers`: the three MongoDB collections held in memory by a class `Bot`
  (`users`, `tasks`, `claims`) together with the cookie-file flag and a ghost
  count of browsers started, and the handlers that change them:
  `HandleMessage` (registration), `AddTask` (`/add_task` without the
  broadcast), and `Button` (the "Verify" press). `Valid()` is the invariant all
  of them keep: task ids are 1, 2, 3, … in insertion order, every task has
  exactly one claims list under its id, nobody is on a list twice, and only
  registered users are on the lists.

Some of the code's tests are looser than their purpose suggests, and some failures are crashes; the model follows the code:

- The retweet test is `task_url in link`, a substring test, not equality of
  links (`RetweetBySubstring`).
- The reply test is `task_url in parent_link`, also a substring test, not a
  comparison of post identities.
- The keyword test lowercases both sides and looks for `"$broke"` including the
  dollar sign, so a reply saying "gm broke" does not match
  (`KeywordIgnoresCase`).
- Neither scan retries a login, there are no timeouts, and the "already claimed"
  check is not repeated before the claim is written: none of this is in the
  code.
- An unknown task id makes `claim["telegram_ids"]` fail on `None`;
  the model reports this as the outcome `UnknownTask` and changes nothing.

## Model

| member | source | states |
|---|---|---|
| PyStr.Strip | telegramBot_ForX.py:226 | `str.strip()`: leading whitespace is skipped, then trailing whitespace down to that point; characterised by `StripSlice` and `StripTrimmed` |
| PyStr.LStripAt | telegramBot_ForX.py:230 | `str.lstrip("@")`; characterised by `LStripAtSlice` and `LStripAtRun` |
| PyStr.StripSlice | telegramBot_ForX.py:226 | `strip()` keeps one slice of its input, drops only whitespace before and after it, and the slice neither starts nor ends with whitespace |
| PyStr.LStripAtSlice | telegramBot_ForX.py:230 | `lstrip("@")` drops exactly the leading run of `@`; what remains is empty or starts with another character |
| PyStr.LStripAtRun | telegramBot_ForX.py:230 | any number of leading `@` in front of a string not starting with `@` are all removed, and nothing else is |
| PyStr.StripTrimmed | telegramBot_ForX.py:226 | `strip()` leaves a string unchanged when it neither starts nor ends with whitespace |
| PyStr.Lower | telegramBot_ForX.py:148 | `str.lower()` on ASCII letters, keeping the length; its use in the keyword test is shown by `KeywordIgnoresCase` |
| PyStr.Contains | telegramBot_ForX.py:201 | Python's `sub in s` (also used at lines 148, 370 and 388): `sub` occurs contiguously somewhere in `s`; `RetweetBySubstring` shows a mere prefix match suffices |
| PyStr.Truthy | telegramBot_ForX.py:370 | Python truthiness of an optional string (also at lines 130 and 158): present and non-empty; it gates `SessionAvailable`, `ThreadParent` and `ClaimPasses` |
| PyStr.Split | telegramBot_ForX.py:340 | splitting on the bar character yields at least one field, no field contains the bar, and joining the fields with bars gives back the input |
| PyStr.SplitJoin | telegramBot_ForX.py:340 | splitting the join of bar-free fields gives back exactly those fields |
| PyStr.ParseNat | telegramBot_ForX.py:343 | the model's digit parser for `int()`: it succeeds exactly when the field is a non-empty string of ASCII decimal digits |
| PyStr.NatToString | telegramBot_ForX.py:270 | the f-string rendering of a task id is a non-empty digit string without a leading zero |
| PyStr.ParseNatToString | telegramBot_ForX.py:343 | `int()` of the rendering of `n` is `n` |
| Callback.Encode | telegramBot_ForX.py:270 | the payload `verify`, the task id and `0` joined by bars; `RoundTrip` and `TrailingFieldsIgnored` show `Decode` reads the task id back from it |
| Callback.Decode | telegramBot_ForX.py:340-343 | splitting on the bar character, the tag test and `int(data[1])`; `RoundTrip`, `OtherTagIgnored` and `BareTagMalformed` give its three outcomes |
| Callback.RoundTrip | telegramBot_ForX.py:340-343 | decoding the payload built at line 270 for task `id` (`verify`, `id` and `0` joined by bars) asks to verify task `id` |
| Callback.TrailingFieldsIgnored | telegramBot_ForX.py:340-343 | fields after the task id do not change the request |
| Callback.OtherTagIgnored | telegramBot_ForX.py:342 | a payload whose first field is not `verify` is ignored, whatever follows |
| Callback.BareTagMalformed | telegramBot_ForX.py:343 | `verify` without a task id is the `data[1]` index error |
| Evidence.SessionAvailable | telegramBot_ForX.py:129-131 | the gate at the head of both scans (repeated at lines 185-187): stored cookies, or both credentials truthy; `ScrapeReplies` and `CheckRetweet` fail exactly when it is false |
| Evidence.Matches | telegramBot_ForX.py:148 | `keyword.lower() in text.lower()`; illustrated by `KeywordIgnoresCase` |
| Evidence.ThreadParent | telegramBot_ForX.py:158-172 | the parent link read from one reply's thread; characterised by `ParentNeedsThread` |
| Evidence.ReplyParent | telegramBot_ForX.py:143-177 | what the reply loop returns, the thread parent of the first match; `ScrapeReplies` is proved equal to it, `NoMatchNoParent` and `FirstMatchDecides` characterise it |
| Evidence.Retweeted | telegramBot_ForX.py:198-204 | some profile status link contains the task URL; `CheckRetweet` is proved equal to it, `RetweetBySubstring` characterises it |
| Evidence.FirstMatch | telegramBot_ForX.py:145-149 | the index found is the first article whose lowercased text contains the lowercased keyword; none exactly when no article matches |
| Evidence.ScrapeReplies | telegramBot_ForX.py:125-177 | fails exactly when there are no stored cookies and a credential is missing; otherwise returns the thread parent of the first matching reply, as `ReplyParent` defines it |
| Evidence.NoMatchNoParent | telegramBot_ForX.py:143-177 | no matching reply means no parent link |
| Evidence.FirstMatchDecides | telegramBot_ForX.py:145-173 | only the first matching reply is examined: the replies after it never change the answer, even when its own link leads nowhere |
| Evidence.ParentNeedsThread | telegramBot_ForX.py:158-172 | a parent link is reported only from a matching reply with a truthy link whose thread page shows at least two articles, and it is the first article's link |
| Evidence.KeywordIgnoresCase | telegramBot_ForX.py:148 | "gm $BROKE" and "I love $broke coin" match `$Broke`; "gm broke" does not |
| Evidence.CheckRetweet | telegramBot_ForX.py:180-208 | fails exactly when there are no stored cookies and a credential is missing; otherwise true exactly when some profile status link contains the task URL |
| Evidence.RetweetBySubstring | telegramBot_ForX.py:199-204 | a profile link that merely starts with the task URL counts as a retweet |
| Handlers.MaxTaskId | telegramBot_ForX.py:57 | the id read is stored on some task and no stored id exceeds it |
| Handlers.NextTaskId | telegramBot_ForX.py:55-61 | 1 on an empty store, otherwise the largest stored id plus one; in both cases larger than every stored id |
| Handlers.SequentialNextId | telegramBot_ForX.py:55-61 | when the stored ids are 1..n in order, the next id is n + 1 |
| Handlers.HasTaskAppend | telegramBot_ForX.py:262 | inserting a task adds exactly its id to the stored ids |
| Handlers.FindTask | telegramBot_ForX.py:359 | the lookup by id finds a task exactly when one is stored under that id, and then the first one |
| Handlers.NormaliseUsername | telegramBot_ForX.py:226-230 | `text.strip().lstrip("@").strip()`; characterised by `NormaliseSlice`, `NormaliseDropsPrefix`, `NormaliseDropsSuffix`, `NormaliseTrimmed` and `NormaliseHandle` |
| Handlers.NormaliseSlice | telegramBot_ForX.py:226-230 | the stored username is the slice of the message between `UsernameStart` and `UsernameEnd` |
| Handlers.NormaliseDropsPrefix | telegramBot_ForX.py:226-230 | only whitespace and `@` are dropped in front of the stored username |
| Handlers.NormaliseDropsSuffix | telegramBot_ForX.py:226-230 | only whitespace is dropped behind the stored username |
| Handlers.NormaliseTrimmed | telegramBot_ForX.py:226-230 | the stored username neither starts nor ends with whitespace |
| Handlers.NormaliseHandle | telegramBot_ForX.py:226-230 | a handle without surrounding whitespace or a leading `@` is stored as it is, after any number of leading `@` |
| Handlers.NormaliseDropsAts | telegramBot_ForX.py:226-230 | " @@ann " is stored as "ann" |
| Handlers.NormaliseKeepsInnerAt | telegramBot_ForX.py:226-230 | "@ @bob" is stored as "@bob": the `@` behind the space survives |
| Handlers.Bot.Valid | telegramBot_ForX.py:259-263 | ids 1, 2, 3, ... in insertion order, one claims list per task id, no duplicate or unregistered claimant; established by the constructor and kept by every handler |
| Handlers.ClaimPasses | telegramBot_ForX.py:388 | the AND rule: a truthy parent link containing the task URL, and a retweet; `Scan` shows it alone decides `Verified` |
| Handlers.ScanOutcome | telegramBot_ForX.py:363-388 | the decision of the two scans from the state before the press; `Scan` and `Settle` are proved to produce it |
| Handlers.Bot.constructor | telegramBot_ForX.py:48-52 | a fresh deployment has empty collections and satisfies the invariant |
| Handlers.Bot.HandleMessage | telegramBot_ForX.py:224-235 | the sender's entry is set to the normalised username, every other user, the tasks and the claims are unchanged, and the invariant is kept |
| Handlers.Bot.AddTask | telegramBot_ForX.py:244-263 | a non-admin, a missing argument or an unconvertible reward changes nothing; otherwise exactly one task is appended under the fresh id `len(tasks) + 1` with one empty claims list under the same id, and the button payload is `verify`, `id` and `0` joined by bars |
| Handlers.Bot.StoreTask | telegramBot_ForX.py:259-263 | the two inserts: the task under the next id and an empty claims list for it, keeping the invariant |
| Handlers.Bot.RecordClaim | telegramBot_ForX.py:390-393 | the `$push` appends the user to that task's list only, keeping the invariant |
| Handlers.Bot.Button | telegramBot_ForX.py:337-356 | an ignored or malformed payload, an unregistered presser, an unknown task and a repeated claim start no browser and change nothing; otherwise the claim is settled as `Settle` states |
| Handlers.Bot.Settle | telegramBot_ForX.py:358-412 | the outcome is `ScanOutcome` on the state before the press; the cookie file exists afterwards exactly when the session gate passed; one browser is started when the first scan fails, two otherwise; the claims change only on `Verified`, by appending the presser to that task's list |
| Handlers.Scan | telegramBot_ForX.py:363-388 | the two scans in sequence and the AND decision: fail without a session, otherwise `Verified` with the stored reward exactly when the parent link is truthy, contains the task URL, and the retweet check holds, and `Rejected` otherwise |
| Handlers.AddTwice | telegramBot_ForX.py:259-263 | two successful `/add_task` calls hand out consecutive ids, the first being 1 on an empty store |
| Handlers.VerifyAgain | telegramBot_ForX.py:352-356 | after a successful verify, pressing the same button again is refused as already claimed |

## Left out

- Selenium: creating the driver, navigating, `time.sleep`, filling in the login form and `driver.quit()` are browser I/O; page contents are the `Web` parameter, and the number of browsers started is a ghost counter.
- The pickle cookie file is a boolean; its contents are not modelled. A login is assumed to save cookies, as `login_and_save_cookies` always pickles them.
- MongoDB: the collections are in-memory maps and a sequence; connection errors and other database exceptions are not modelled.
- Telegram transport: `start`, `register`, `broadcast`, `main`, the message replies and edits, `query.answer()` and the announcement loop in `add_task` deliver messages through a library outside this model.
- Environment loading, the `eval` of `ADMIN_PRIVATE_KEY`, `BOT_WALLET` and the token: the admin list and the two X credentials are constructor parameters.
- Handlers.Bot.AddTask: the reward is a `nat` read by the digit parser, not a Python float; signs, fractions, exponents, `inf` and `nan` count as an unconvertible reward, where `float()` would accept them.
- PyStr.ParseNat: models `int(data[1])` for plain ASCII digit strings only; surrounding whitespace, a sign, underscores and non-ASCII digits are treated as malformed, where Python's `int()` accepts them.
- PyStr.Lower: folds ASCII letters only; Python's `str.lower()` also folds the rest of Unicode.
- Handlers.Bot.Settle: an exception from the browser after the session gate (a missing element outside the `try` blocks, a failed page load) is not modelled; the only failure is the missing-session error.
- Concurrency between handler runs is not modelled: one handler call runs to completion, which matches the code, since there is no `await` between the claims check and the write.
- The model starts from empty collections; data written by earlier deployments, such as tasks with ids out of order, is not covered by `Valid()`.
