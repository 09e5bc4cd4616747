/**
 * The bot's bookkeeping: the `users`, `tasks` and `claims` collections held in
 * memory, the stored-cookie file of the browser session, and the three handlers
 * that change them: registration by plain message, the admin's `/add_task`, and
 * the "Verify" button that settles a claim.
 */
module Handlers {
  import opened Common
  import opened PyStr
  import opened Callback
  import opened Evidence

  /** A document of the `tasks` collection. */
  datatype Task = Task(taskId: int, url: string, reward: nat)

  /** The largest `task_id` stored: what `find_one(sort=[("task_id", -1)])` reads. */
  function MaxTaskId(tasks: seq<Task>): (m: int)
    requires tasks != []
    ensures exists i | 0 <= i < |tasks| :: tasks[i].taskId == m
    ensures forall i | 0 <= i < |tasks| :: tasks[i].taskId <= m
  {
    if |tasks| == 1 then tasks[0].taskId
    else
      var rest := MaxTaskId(tasks[1..]);
      assert forall i | 1 <= i < |tasks| :: tasks[i] == tasks[1..][i - 1];
      if tasks[0].taskId > rest then tasks[0].taskId else rest
  }

  /** `get_next_task_id()`: one past the largest stored id, or 1 when there are no tasks. */
  function NextTaskId(tasks: seq<Task>): (id: int)
    ensures tasks == [] ==> id == 1
    ensures tasks != [] ==> id - 1 == MaxTaskId(tasks)
    ensures forall i | 0 <= i < |tasks| :: tasks[i].taskId < id
  {
    if tasks == [] then 1 else MaxTaskId(tasks) + 1
  }

  /** When the stored ids are 1, 2, ..., n in order, the next id is n + 1. */
  lemma SequentialNextId(tasks: seq<Task>)
    requires forall i | 0 <= i < |tasks| :: tasks[i].taskId == i + 1
    ensures NextTaskId(tasks) == |tasks| + 1
  {
    if tasks != [] {
      assert tasks[|tasks| - 1].taskId == |tasks|;
      var i :| 0 <= i < |tasks| && tasks[i].taskId == MaxTaskId(tasks);
    }
  }

  /** The username `handle_message` stores: `text.strip().lstrip("@").strip()`. */
  function NormaliseUsername(text: string): string
  {
    Strip(LStripAt(Strip(text)))
  }

  /** Where the run of `@` that `lstrip("@")` removes ends, as an index into the message. */
  function AtRunEnd(text: string): nat
  {
    StripStart(text) + SkipForward(Strip(text), IsAt, 0)
  }

  /** Where the stored username starts in the message. */
  function UsernameStart(text: string): nat
  {
    AtRunEnd(text) + StripStart(LStripAt(Strip(text)))
  }

  /** Where the stored username ends in the message. */
  function UsernameEnd(text: string): nat
  {
    AtRunEnd(text) + StripEnd(LStripAt(Strip(text)))
  }

  /** After the first two steps the message is cut down to `text[AtRunEnd(text)..StripEnd(text)]`. */
  lemma AtStrippedSlice(text: string)
    ensures AtRunEnd(text) <= StripEnd(text) <= |text|
    ensures LStripAt(Strip(text)) == text[AtRunEnd(text)..StripEnd(text)]
  {
    var s1 := Strip(text);
    var a, b, c := StripStart(text), StripEnd(text), AtRunEnd(text);
    SliceOfSlice(text, a, b, c - a, b - a);
    assert s1[c - a..] == s1[c - a..b - a];
  }

  /** The first two steps drop only whitespace and `@` in front, only whitespace behind. */
  lemma AtStrippedDrops(text: string)
    ensures AtRunEnd(text) <= StripEnd(text) <= |text|
    ensures forall k | 0 <= k < AtRunEnd(text) :: IsSpace(text[k]) || IsAt(text[k])
    ensures forall k | StripEnd(text) <= k < |text| :: IsSpace(text[k])
  {
    var s1 := Strip(text);
    var a, c := StripStart(text), AtRunEnd(text);
    StripSlice(text);
    LStripAtSlice(s1);
    forall k | a <= k < c ensures IsAt(text[k]) {
      assert text[k] == s1[k - a];
    }
  }

  /** The stored username is the slice `text[UsernameStart(text)..UsernameEnd(text)]` of the message. */
  lemma NormaliseSlice(text: string)
    ensures UsernameStart(text) <= UsernameEnd(text) <= |text|
    ensures NormaliseUsername(text) == text[UsernameStart(text)..UsernameEnd(text)]
  {
    var x := LStripAt(Strip(text));
    AtStrippedSlice(text);
    StripWithinSlice(text, x, AtRunEnd(text), StripEnd(text));
    assert NormaliseUsername(text) == Strip(x);
  }

  /** Only whitespace and `@` are dropped in front of the stored username. */
  lemma NormaliseDropsPrefix(text: string)
    ensures forall k | 0 <= k < UsernameStart(text) :: IsSpace(text[k]) || IsAt(text[k])
  {
    AtStrippedSlice(text);
    AtStrippedDrops(text);
    StripWithin(text, LStripAt(Strip(text)), AtRunEnd(text), StripEnd(text));
  }

  /** Only whitespace is dropped behind the stored username. */
  lemma NormaliseDropsSuffix(text: string)
    ensures UsernameEnd(text) <= |text|
    ensures forall k | UsernameEnd(text) <= k < |text| :: IsSpace(text[k])
  {
    AtStrippedSlice(text);
    AtStrippedDrops(text);
    StripWithin(text, LStripAt(Strip(text)), AtRunEnd(text), StripEnd(text));
  }

  /** The stored username neither starts nor ends with whitespace. */
  lemma NormaliseTrimmed(text: string)
    ensures var u := NormaliseUsername(text); u == [] || (!IsSpace(u[0]) && !IsSpace(u[|u| - 1]))
  {
    StripSlice(LStripAt(Strip(text)));
  }

  /**
   * A handle that neither starts with whitespace or `@` nor ends with whitespace
   * is stored as it is, after any number of leading `@`.
   */
  lemma NormaliseHandle(ats: string, h: string)
    requires forall k | 0 <= k < |ats| :: ats[k] == '@'
    requires h == [] || (!IsSpace(h[0]) && h[0] != '@' && !IsSpace(h[|h| - 1]))
    ensures NormaliseUsername(ats + h) == h
  {
    var s := ats + h;
    if s != [] {
      assert s[0] == (if ats == [] then h[0] else ats[0]);
      assert s[|s| - 1] == (if h == [] then ats[|ats| - 1] else h[|h| - 1]);
    }
    StripTrimmed(s);
    LStripAtRun(ats, h);
    StripTrimmed(h);
  }

  /** Surrounding spaces and the leading run of `@` are dropped: " @@ann " is stored as "ann". */
  lemma NormaliseDropsAts()
    ensures NormaliseUsername(" @@ann ") == "ann"
  {
    var t := " @@ann ";
    assert !IsSpace(t[1]) && StripStart(t) == 1;
    assert !IsSpace(t[5]) && StripEnd(t) == 6;
    assert Strip(t) == "@@ann";
    assert SkipForward("@@ann", IsAt, 0) == 2;
    assert LStripAt("@@ann") == "ann";
    assert !IsSpace('a') && !IsSpace('n');
    assert StripStart("ann") == 0 && StripEnd("ann") == 3;
  }

  /** `lstrip("@")` runs once, so an `@` behind a space survives: "@ @bob" is stored as "@bob". */
  lemma NormaliseKeepsInnerAt()
    ensures NormaliseUsername("@ @bob") == "@bob"
  {
    var t := "@ @bob";
    assert !IsSpace(t[0]) && StripStart(t) == 0;
    assert !IsSpace(t[5]) && StripEnd(t) == 6;
    assert Strip(t) == t;
    assert SkipForward(t, IsAt, 0) == 1;
    assert LStripAt(t) == " @bob";
    assert IsSpace(' ') && !IsSpace('@') && !IsSpace('b');
    assert StripStart(" @bob") == 1 && StripEnd(" @bob") == 5;
  }

  predicate HasTask(tasks: seq<Task>, taskId: int)
  {
    exists i | 0 <= i < |tasks| :: tasks[i].taskId == taskId
  }

  /** Appending a task adds exactly its id to the stored ids. */
  lemma HasTaskAppend(tasks: seq<Task>, t: Task)
    ensures forall id :: HasTask(tasks + [t], id) <==> id == t.taskId || HasTask(tasks, id)
  {
    var s := tasks + [t];
    assert s[|tasks|] == t;
    forall id | HasTask(tasks, id) ensures HasTask(s, id) {
      var i :| 0 <= i < |tasks| && tasks[i].taskId == id;
      assert s[i] == tasks[i];
    }
    forall id | HasTask(s, id) && id != t.taskId ensures HasTask(tasks, id) {
      var i :| 0 <= i < |s| && s[i].taskId == id;
      assert tasks[i] == s[i];
    }
  }

  /** `tasks_col.find_one({"task_id": taskId})`: the first task stored under that id. */
  function FindTask(tasks: seq<Task>, taskId: int): (r: Option<Task>)
    ensures r.Some? <==> HasTask(tasks, taskId)
    ensures r.Some? ==> exists i | 0 <= i < |tasks| :: tasks[i] == r.value
                          && r.value.taskId == taskId
                          && forall j | 0 <= j < i :: tasks[j].taskId != taskId
  {
    if tasks == [] then None
    else if tasks[0].taskId == taskId then Some(tasks[0])
    else
      var r := FindTask(tasks[1..], taskId);
      assert forall i | 1 <= i < |tasks| :: tasks[i] == tasks[1..][i - 1];
      r
  }

  predicate NoDuplicates(s: seq<int>)
  {
    forall i, j | 0 <= i < j < |s| :: s[i] != s[j]
  }

  /** The decision at the end of `button`: a truthy parent link containing the task URL, and a retweet. */
  predicate ClaimPasses(parentLink: Option<string>, taskUrl: string, retweeted: bool)
  {
    Truthy(parentLink) && Contains(parentLink.value, taskUrl) && retweeted
  }

  /** The replies `/add_task` can end with. */
  datatype AddTaskOutcome =
    | NotAuthorized                            // caller not in the admin list
    | Usage                                    // fewer than two arguments
    | BadReward                                // the reward argument does not convert
    | Added(taskId: nat, callbackData: string) // stored; announced with this button payload

  /** The ends a press of an inline button can come to. */
  datatype VerifyOutcome =
    | Ignored                 // the payload's tag is not "verify"
    | BadCallback             // the payload has no task id or a non-numeric one
    | NotRegistered           // the presser has no username stored
    | UnknownTask             // no claims document for the id: `claim["telegram_ids"]` fails on None
    | AlreadyClaimed          // the presser is already on the task's claims list
    | Failed(error: ScanError) // a scan raised before reporting anything
    | Rejected                // evidence gathered, the decision did not pass
    | Verified(reward: nat)   // claim recorded; the stored reward is reported

  /**
   * What the two scans of `button` decide for `username` and `task`: no session
   * at all fails the first scan; otherwise the claim passes when the keyword
   * reply sits under a post whose link contains the task URL and the profile
   * shows a retweet of it.
   */
  function ScanOutcome(username: string, task: Task, cookiesStored: bool,
                       loginUser: Option<string>, loginPass: Option<string>, web: Web): VerifyOutcome
  {
    if !SessionAvailable(cookiesStored, loginUser, loginPass) then Failed(NoCookiesNoCredentials)
    else
      var parent := ReplyParent(web.articles(RepliesUrl(username)), Keyword, web);
      var retweeted := Retweeted(web.statusLinks(ProfileUrl(username)), task.url);
      if ClaimPasses(parent, task.url, retweeted) then Verified(task.reward) else Rejected
  }

  class Bot {
    const admins: set<int>
    const loginUser: Option<string>
    const loginPass: Option<string>

    /** `users`: telegram_id to x_username. */
    var users: map<int, string>
    /** `tasks`, in insertion order. */
    var tasks: seq<Task>
    /** `claims`: task_id to the telegram_ids that claimed it, in claim order. */
    var claims: map<int, seq<int>>
    /** Whether the browser cookie file exists. */
    var cookiesStored: bool
    /** How many browsers the scans have started so far (one per scan call). */
    ghost var browsersStarted: nat

    /**
     * What the handlers keep true: task ids are 1, 2, 3, ... in insertion order,
     * each task has exactly one claims list under its id, nobody is on a list
     * twice, and only registered users are on the lists.
     */
    ghost predicate Valid()
      reads this`users, this`tasks, this`claims
    {
      && (forall i | 0 <= i < |tasks| :: tasks[i].taskId == i + 1)
      && (forall id :: id in claims <==> HasTask(tasks, id))
      && (forall id | id in claims :: NoDuplicates(claims[id]))
      && (forall id, u | id in claims && u in claims[id] :: u in users)
    }

    /** A fresh deployment: empty collections, the admin list and login credentials from the environment. */
    constructor (admins: set<int>, loginUser: Option<string>, loginPass: Option<string>, cookiesStored: bool)
      ensures Valid()
      ensures this.admins == admins && this.loginUser == loginUser && this.loginPass == loginPass
      ensures users == map[] && tasks == [] && claims == map[]
      ensures this.cookiesStored == cookiesStored && browsersStarted == 0
    {
      this.admins := admins;
      this.loginUser := loginUser;
      this.loginPass := loginPass;
      users := map[];
      tasks := [];
      claims := map[];
      this.cookiesStored := cookiesStored;
      browsersStarted := 0;
    }

    /** `handle_message`: any plain text message (re-)registers its sender's username. */
    method HandleMessage(telegramId: int, text: string) returns (username: string)
      requires Valid()
      modifies this
      ensures Valid()
      ensures username == NormaliseUsername(text)
      ensures users == old(users)[telegramId := username]
      ensures tasks == old(tasks) && claims == old(claims)
      ensures cookiesStored == old(cookiesStored) && browsersStarted == old(browsersStarted)
    {
      username := NormaliseUsername(text);
      users := users[telegramId := username];
    }

    /** `add_task`: the two gates, the reward conversion, then the task and its empty claims list. */
    method AddTask(caller: int, args: seq<string>) returns (outcome: AddTaskOutcome)
      requires Valid()
      modifies this
      ensures Valid()
      ensures users == old(users)
      ensures cookiesStored == old(cookiesStored) && browsersStarted == old(browsersStarted)
      ensures caller !in admins ==> outcome == NotAuthorized
      ensures caller in admins && |args| < 2 ==> outcome == Usage
      ensures caller in admins && |args| >= 2 && ParseNat(args[1]).None? ==> outcome == BadReward
      ensures !outcome.Added? ==> tasks == old(tasks) && claims == old(claims)
      ensures caller in admins && |args| >= 2 && ParseNat(args[1]).Some? ==>
                && outcome == Added(|old(tasks)| + 1, Encode(|old(tasks)| + 1))
                && outcome.taskId == NextTaskId(old(tasks))
                && outcome.taskId !in old(claims)
                && tasks == old(tasks) + [Task(outcome.taskId, args[0], ParseNat(args[1]).value)]
                && claims == old(claims)[outcome.taskId := []]
    {
      if caller !in admins {
        return NotAuthorized;
      }
      if |args| < 2 {
        return Usage;
      }
      var url := args[0];
      var reward := ParseNat(args[1]);
      if reward.None? {
        return BadReward;
      }
      var id := StoreTask(url, reward.value);
      outcome := Added(id, Encode(id));
    }

    /** The two inserts of `add_task`: the task under the next id, and its empty claims list. */
    method StoreTask(url: string, reward: nat) returns (id: nat)
      requires Valid()
      modifies this
      ensures Valid()
      ensures id == |old(tasks)| + 1 && id == NextTaskId(old(tasks)) && id !in old(claims)
      ensures tasks == old(tasks) + [Task(id, url, reward)]
      ensures claims == old(claims)[id := []]
      ensures users == old(users) && cookiesStored == old(cookiesStored) && browsersStarted == old(browsersStarted)
    {
      id := NextTaskId(tasks);
      SequentialNextId(tasks);
      HasTaskAppend(tasks, Task(id, url, reward));
      tasks := tasks + [Task(id, url, reward)];
      claims := claims[id := []];
    }

    /** The `$push` of `button`: a registered user not yet on the task's list is appended to it. */
    method RecordClaim(taskId: int, telegramId: int)
      requires Valid()
      requires taskId in claims && telegramId in users && telegramId !in claims[taskId]
      modifies this
      ensures Valid()
      ensures claims == old(claims)[taskId := old(claims)[taskId] + [telegramId]]
      ensures users == old(users) && tasks == old(tasks)
      ensures cookiesStored == old(cookiesStored) && browsersStarted == old(browsersStarted)
    {
      claims := claims[taskId := claims[taskId] + [telegramId]];
    }

    /**
     * `button`, verify path: decode the payload, check registration and earlier
     * claims, then settle the claim.
     */
    method Button(telegramId: int, data: string, web: Web) returns (outcome: VerifyOutcome)
      requires Valid()
      modifies this
      ensures Valid()
      ensures users == old(users) && tasks == old(tasks)
      ensures Decode(data).Other? ==> outcome == Ignored
      ensures Decode(data).Malformed? ==> outcome == BadCallback
      ensures Decode(data).VerifyTask? ==>
                var id := Decode(data).taskId;
                if telegramId !in old(users) then outcome == NotRegistered
                else if id !in old(claims) then outcome == UnknownTask
                else if telegramId in old(claims)[id] then outcome == AlreadyClaimed
                else
                  && outcome == ScanOutcome(old(users)[telegramId], FindTask(old(tasks), id).value, old(cookiesStored), loginUser, loginPass, web)
                  && cookiesStored == SessionAvailable(old(cookiesStored), loginUser, loginPass)
                  && browsersStarted == old(browsersStarted) + (if outcome.Failed? then 1 else 2)
      ensures !(outcome.Failed? || outcome.Rejected? || outcome.Verified?) ==>
                cookiesStored == old(cookiesStored) && browsersStarted == old(browsersStarted)
      ensures !outcome.Verified? ==> claims == old(claims)
      ensures outcome.Verified? ==>
                && Decode(data).VerifyTask?
                && Decode(data).taskId in old(claims)
                && claims == old(claims)[Decode(data).taskId := old(claims)[Decode(data).taskId] + [telegramId]]
    {
      var request := Decode(data);
      if request.Other? {
        return Ignored;
      }
      if request.Malformed? {
        return BadCallback;
      }
      var taskId := request.taskId;
      if telegramId !in users {
        return NotRegistered;
      }
      if taskId !in claims {
        return UnknownTask;
      }
      if telegramId in claims[taskId] {
        return AlreadyClaimed;
      }
      outcome := Settle(telegramId, taskId, web);
    }

    /**
     * The end of `button` for a registered user's first claim on a stored task:
     * one browser for the reply scan, one for the retweet scan, and the claim is
     * recorded only when both checks pass.
     */
    method Settle(telegramId: int, taskId: int, web: Web) returns (outcome: VerifyOutcome)
      requires Valid()
      requires telegramId in users && taskId in claims && telegramId !in claims[taskId]
      modifies this
      ensures Valid()
      ensures users == old(users) && tasks == old(tasks)
      ensures outcome == ScanOutcome(old(users)[telegramId], FindTask(old(tasks), taskId).value, old(cookiesStored), loginUser, loginPass, web)
      ensures cookiesStored == SessionAvailable(old(cookiesStored), loginUser, loginPass)
      ensures browsersStarted == old(browsersStarted) + (if outcome.Failed? then 1 else 2)
      ensures !outcome.Verified? ==> claims == old(claims)
      ensures outcome.Verified? ==> claims == old(claims)[taskId := old(claims)[taskId] + [telegramId]]
    {
      var task := FindTask(tasks, taskId).value;
      outcome := Scan(users[telegramId], task, cookiesStored, loginUser, loginPass, web);
      if outcome.Failed? {
        // only the reply scan's browser was started
        browsersStarted := browsersStarted + 1;
      } else {
        // the gate passed: the cookies were there, or the login just saved them
        cookiesStored, browsersStarted := true, browsersStarted + 2;
        if outcome.Verified? {
          RecordClaim(taskId, telegramId);
        }
      }
    }
  }

  /**
   * The two scans of `button`: the reply scan, then, once it has returned, the
   * retweet scan with the session it saved, and the decision on their findings.
   */
  method Scan(username: string, task: Task, cookiesStored: bool,
              loginUser: Option<string>, loginPass: Option<string>, web: Web) returns (outcome: VerifyOutcome)
    ensures outcome == ScanOutcome(username, task, cookiesStored, loginUser, loginPass, web)
  {
    var reply := ScrapeReplies(username, Keyword, cookiesStored, loginUser, loginPass, web);
    if reply.Err? {
      return Failed(reply.error);
    }
    var retweet := CheckRetweet(username, task.url, true, loginUser, loginPass, web);
    match retweet
    case Err(e) =>
      outcome := Failed(e);
    case Ok(retweeted) =>
      outcome := if ClaimPasses(reply.value, task.url, retweeted) then Verified(task.reward) else Rejected;
  }

  /** Two successful `/add_task` calls in a row hand out consecutive ids, starting from 1 on an empty store. */
  method AddTwice(bot: Bot, caller: int, args1: seq<string>, args2: seq<string>)
    returns (first: AddTaskOutcome, second: AddTaskOutcome)
    requires bot.Valid()
    modifies bot
    ensures bot.Valid()
    ensures first.Added? && second.Added? ==> second.taskId == first.taskId + 1
    ensures first.Added? && old(bot.tasks) == [] ==> first.taskId == 1
    ensures first.Added? && second.Added? ==> |bot.tasks| == |old(bot.tasks)| + 2
  {
    first := bot.AddTask(caller, args1);
    second := bot.AddTask(caller, args2);
  }

  /** Pressing "Verify" again after a successful claim is refused before any browser starts. */
  method VerifyAgain(bot: Bot, telegramId: int, data: string, web: Web) returns (first: VerifyOutcome, second: VerifyOutcome)
    requires bot.Valid()
    modifies bot
    ensures bot.Valid()
    ensures first.Verified? ==> second == AlreadyClaimed
    ensures first.Verified? ==> bot.browsersStarted == old(bot.browsersStarted) + 2
    ensures first.Verified? ==>
              && Decode(data).VerifyTask?
              && Decode(data).taskId in old(bot.claims)
              && bot.claims == old(bot.claims)[Decode(data).taskId := old(bot.claims)[Decode(data).taskId] + [telegramId]]
  {
    first := bot.Button(telegramId, data, web);
    ghost var claimsBetween := bot.claims;
    ghost var browsersBetween := bot.browsersStarted;
    second := bot.Button(telegramId, data, web);
    if first.Verified? {
      var id := Decode(data).taskId;
      assert telegramId in claimsBetween[id];
      assert bot.claims == claimsBetween && bot.browsersStarted == browsersBetween;
    }
  }
}
