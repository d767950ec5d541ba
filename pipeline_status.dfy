/**
 * The pipeline-status endpoint (src/routes/api/pipeline-status.ts): an
 * authenticated GET that reads the pipeline's state and heartbeat documents
 * and answers with per-status and per-niche task counts, the held tasks,
 * per-status post counts and the heartbeat as it was read.
 *
 * Authentication and the two file reads are parameters: `authenticated` is
 * what `isAuthenticated(request)` returned, and each document is what
 * `readJson` returned for it, None standing for its `null` (a missing or
 * unparsable file). The handler reports which files it consulted, in order.
 */
module PipelineStatus {
  import opened Wrappers

  /** A JSON value, for fields the endpoint passes through untouched. */
  datatype Json =
    | JNull
    | JBool(b: bool)
    | JNumber(n: int)
    | JString(s: string)
    | JArray(items: seq<Json>)
    | JObject(fields: seq<(string, Json)>)

  /** A task record of the state document; None is an absent field. */
  datatype Task = Task(
    status: Option<string>,
    niche: Option<string>,
    title: Option<Json>,
    safetyResult: Option<Json>,
    postStatus: Option<string>)

  /** One `[tid, t]` pair of `Object.entries(tasks)`, in iteration order. */
  datatype Entry = Entry(id: string, task: Task)

  /** A post record of the state document. */
  datatype Post = Post(status: Option<string>)

  /** The state document; `tasks` and `posts` are None when absent. */
  datatype State = State(
    date: Option<Json>,
    status: Option<Json>,
    updatedAt: Option<Json>,
    stats: Option<Json>,
    tasks: Option<seq<Entry>>,
    posts: Option<seq<Post>>)

  /** An entry of the `held` list. */
  datatype HeldTask = HeldTask(
    id: string,
    title: Option<Json>,
    niche: Option<string>,
    safety: Option<Json>,
    postStatus: Option<string>)

  datatype TaskSummary = TaskSummary(total: nat, byStatus: map<string, nat>, byNiche: map<string, nat>)

  datatype PostSummary = PostSummary(total: nat, byStatus: map<string, nat>)

  /** The three shapes of response body. */
  datatype Body =
    | Failure(error: string)
    | NoState(status: string, message: string)
    | Summary(
        date: Option<Json>,
        phase: Option<Json>,
        updatedAt: Option<Json>,
        stats: Option<Json>,
        tasks: TaskSummary,
        posts: PostSummary,
        held: seq<HeldTask>,
        heartbeat: Option<Json>)
  {
    /** The body's `ok` field. */
    predicate Ok() {
      !Failure?
    }
  }

  datatype Response = Response(httpStatus: nat, body: Body)

  /** The two documents the handler reads. */
  datatype DataFile = StateFile | HeartbeatFile

  const UNAUTHORIZED: Response := Response(401, Failure("Unauthorized"))

  const NO_STATE: Response := Response(200, NoState("no_state", "Pipeline has not run yet"))

  // ---------------------------------------------------------------------------
  // Counting

  /** `(x as string) || 'unknown'`: a missing or empty string counts as
      'unknown'. */
  function OrUnknown(s: Option<string>): (r: string)
    ensures r != ""
    ensures s.None? || s.value == "" ==> r == "unknown"
    ensures s.Some? && s.value != "" ==> r == s.value
  {
    if s.None? || s.value == "" then "unknown" else s.value
  }

  /** `counts[key] = (counts[key] || 0) + 1`. */
  function Bump(counts: map<string, nat>, key: string): (r: map<string, nat>)
    ensures r.Keys == counts.Keys + {key}
    ensures r[key] == (if key in counts then counts[key] else 0) + 1
    ensures forall k :: k in counts && k != key ==> r[k] == counts[k]
  {
    counts[key := (if key in counts then counts[key] else 0) + 1]
  }

  /** The dictionary that counting `keys` one after the other builds. */
  function Histogram(keys: seq<string>): map<string, nat> {
    if keys == [] then map[] else Bump(Histogram(keys[..|keys| - 1]), keys[|keys| - 1])
  }

  /** Each key is counted exactly as often as it occurs, and only keys that
      occur appear. */
  lemma {:induction false} HistogramCounts(keys: seq<string>)
    ensures forall k :: k in Histogram(keys) <==> k in multiset(keys)
    ensures forall k :: k in Histogram(keys) ==> Histogram(keys)[k] == multiset(keys)[k]
  {
    if keys != [] {
      var init, last := keys[..|keys| - 1], keys[|keys| - 1];
      HistogramCounts(init);
      assert keys == init + [last];
      assert multiset(keys) == multiset(init) + multiset{last};
    }
  }

  /** Counting one more key extends the histogram by one Bump. */
  lemma HistogramSnoc(keys: seq<string>, i: nat)
    requires i < |keys|
    ensures Histogram(keys[..i + 1]) == Bump(Histogram(keys[..i]), keys[i])
  {
    assert keys[..i + 1][..i] == keys[..i];
  }

  /** The sum of a dictionary's counts. */
  ghost function MapSum(m: map<string, nat>): nat
    decreases |m|
  {
    if m == map[] then 0
    else
      var k :| k in m;
      m[k] + MapSum(m - {k})
  }

  /** The sum does not depend on which key is taken out first. */
  lemma MapSumRemove(m: map<string, nat>, k: string)
    requires k in m
    ensures MapSum(m) == m[k] + MapSum(m - {k})
    decreases |m|
  {
    var j :| j in m && MapSum(m) == m[j] + MapSum(m - {j});
    if j != k {
      MapSumRemove(m - {j}, k);
      MapSumRemove(m - {k}, j);
      assert m - {j} - {k} == m - {k} - {j};
    }
  }

  /** Counting one more key adds one to the sum. */
  lemma MapSumBump(counts: map<string, nat>, key: string)
    ensures MapSum(Bump(counts, key)) == MapSum(counts) + 1
  {
    var bumped := Bump(counts, key);
    MapSumRemove(bumped, key);
    if key in counts {
      MapSumRemove(counts, key);
      assert bumped - {key} == counts - {key};
    } else {
      assert bumped - {key} == counts;
    }
  }

  /** The counts add up to the number of keys counted. */
  lemma {:induction false} HistogramSum(keys: seq<string>)
    ensures MapSum(Histogram(keys)) == |keys|
  {
    if keys != [] {
      HistogramSum(keys[..|keys| - 1]);
      MapSumBump(Histogram(keys[..|keys| - 1]), keys[|keys| - 1]);
    }
  }

  /** The status key of every task, in iteration order. */
  function StatusKeys(tasks: seq<Entry>): (r: seq<string>)
    ensures |r| == |tasks|
  {
    seq(|tasks|, i requires 0 <= i < |tasks| => OrUnknown(tasks[i].task.status))
  }

  /** The niche key of every task, in iteration order. */
  function NicheKeys(tasks: seq<Entry>): (r: seq<string>)
    ensures |r| == |tasks|
  {
    seq(|tasks|, i requires 0 <= i < |tasks| => OrUnknown(tasks[i].task.niche))
  }

  /** The status key of every post. */
  function PostKeys(posts: seq<Post>): (r: seq<string>)
    ensures |r| == |posts|
  {
    seq(|posts|, i requires 0 <= i < |posts| => OrUnknown(posts[i].status))
  }

  // ---------------------------------------------------------------------------
  // Held tasks

  predicate IsHeld(t: Task) {
    t.postStatus == Some("held_high") || t.postStatus == Some("held_medium")
  }

  /** The record pushed for a held task: raw fields, no defaults. */
  function HeldRecord(e: Entry): HeldTask {
    HeldTask(e.id, e.task.title, e.task.niche, e.task.safetyResult, e.task.postStatus)
  }

  /** The held tasks' records, in iteration order. */
  function HeldOf(tasks: seq<Entry>): seq<HeldTask> {
    if tasks == [] then []
    else
      var init, last := tasks[..|tasks| - 1], tasks[|tasks| - 1];
      HeldOf(init) + if IsHeld(last.task) then [HeldRecord(last)] else []
  }

  /** Looking at one more task extends the held list by at most that task. */
  lemma HeldOfSnoc(tasks: seq<Entry>, i: nat)
    requires i < |tasks|
    ensures HeldOf(tasks[..i + 1]) == HeldOf(tasks[..i]) + if IsHeld(tasks[i].task) then [HeldRecord(tasks[i])] else []
  {
    assert tasks[..i + 1][..i] == tasks[..i];
  }

  /** The filter works piecewise, so it keeps the iteration order. */
  lemma {:induction false} HeldOfAppend(a: seq<Entry>, b: seq<Entry>)
    ensures HeldOf(a + b) == HeldOf(a) + HeldOf(b)
    decreases |b|
  {
    if b != [] {
      var init := b[..|b| - 1];
      assert (a + b)[..|a + b| - 1] == a + init;
      HeldOfAppend(a, init);
    } else {
      assert a + b == a;
    }
  }

  /** Exactly the held tasks are listed, and no more of them than tasks. */
  lemma {:induction false} HeldOfExactly(tasks: seq<Entry>)
    ensures |HeldOf(tasks)| <= |tasks|
    ensures forall h :: h in HeldOf(tasks) ==>
      exists i :: 0 <= i < |tasks| && IsHeld(tasks[i].task) && h == HeldRecord(tasks[i])
    ensures forall i :: 0 <= i < |tasks| && IsHeld(tasks[i].task) ==> HeldRecord(tasks[i]) in HeldOf(tasks)
  {
    if tasks != [] {
      var init, last := tasks[..|tasks| - 1], tasks[|tasks| - 1];
      HeldOfExactly(init);
      assert forall i :: 0 <= i < |init| ==> tasks[i] == init[i];
    }
  }

  /** Every listed record carries a held post status. */
  lemma AllListedAreHeld(tasks: seq<Entry>)
    ensures forall h :: h in HeldOf(tasks) ==> h.postStatus == Some("held_high") || h.postStatus == Some("held_medium")
  {
    HeldOfExactly(tasks);
  }

  // ---------------------------------------------------------------------------
  // The handler

  /** The summary body for a state document that was read. */
  function SummaryOf(state: State, heartbeat: Option<Json>): Body {
    var tasks := if state.tasks.Some? then state.tasks.value else [];
    var posts := if state.posts.Some? then state.posts.value else [];
    Summary(
      state.date, state.status, state.updatedAt, state.stats,
      TaskSummary(|tasks|, Histogram(StatusKeys(tasks)), Histogram(NicheKeys(tasks))),
      PostSummary(|posts|, Histogram(PostKeys(posts))),
      HeldOf(tasks),
      heartbeat)
  }

  /** The totals of a summary are consistent with its counts and its list. */
  lemma SummaryTotals(state: State, heartbeat: Option<Json>)
    ensures var b := SummaryOf(state, heartbeat);
      b.Ok() && b.heartbeat == heartbeat &&
      MapSum(b.tasks.byStatus) == b.tasks.total &&
      MapSum(b.tasks.byNiche) == b.tasks.total &&
      MapSum(b.posts.byStatus) == b.posts.total &&
      |b.held| <= b.tasks.total &&
      (state.tasks.None? ==> b.tasks.total == 0 && b.tasks.byStatus == map[] && b.held == []) &&
      (state.posts.None? ==> b.posts.total == 0 && b.posts.byStatus == map[])
  {
    var tasks := if state.tasks.Some? then state.tasks.value else [];
    var posts := if state.posts.Some? then state.posts.value else [];
    HistogramSum(StatusKeys(tasks));
    HistogramSum(NicheKeys(tasks));
    HistogramSum(PostKeys(posts));
    HeldOfExactly(tasks);
  }

  /** Every task is counted once under its status: a status key appears
      exactly when some task has it, with the number of tasks that have it. */
  lemma StatusCountsPerKey(state: State, heartbeat: Option<Json>, s: string)
    requires state.tasks.Some?
    ensures var b := SummaryOf(state, heartbeat);
      var tasks := state.tasks.value;
      (s in b.tasks.byStatus <==> exists i :: 0 <= i < |tasks| && OrUnknown(tasks[i].task.status) == s) &&
      (s in b.tasks.byStatus ==> b.tasks.byStatus[s] == multiset(StatusKeys(tasks))[s])
  {
    var tasks := state.tasks.value;
    var keys := StatusKeys(tasks);
    HistogramCounts(keys);
    if s in multiset(keys) {
      var i :| 0 <= i < |keys| && keys[i] == s;
      assert OrUnknown(tasks[i].task.status) == s;
    }
    forall i | 0 <= i < |tasks| && OrUnknown(tasks[i].task.status) == s
      ensures s in multiset(keys)
    {
      assert keys[i] == s;
    }
  }

  /** The loop over the tasks: status and niche counts and the held list. */
  method CountTasks(tasks: seq<Entry>)
    returns (taskStatuses: map<string, nat>, nicheBreakdown: map<string, nat>, heldTasks: seq<HeldTask>)
    ensures taskStatuses == Histogram(StatusKeys(tasks))
    ensures nicheBreakdown == Histogram(NicheKeys(tasks))
    ensures heldTasks == HeldOf(tasks)
  {
    taskStatuses := map[];
    heldTasks := [];
    nicheBreakdown := map[];
    ghost var statusKeys, nicheKeys := StatusKeys(tasks), NicheKeys(tasks);

    var i := 0;
    while i < |tasks|
      invariant 0 <= i <= |tasks|
      invariant taskStatuses == Histogram(statusKeys[..i])
      invariant nicheBreakdown == Histogram(nicheKeys[..i])
      invariant heldTasks == HeldOf(tasks[..i])
    {
      var t := tasks[i].task;
      var s := OrUnknown(t.status);
      taskStatuses := Bump(taskStatuses, s);

      var niche := OrUnknown(t.niche);
      nicheBreakdown := Bump(nicheBreakdown, niche);

      if IsHeld(t) {
        heldTasks := heldTasks + [HeldRecord(tasks[i])];
      }

      HistogramSnoc(statusKeys, i);
      HistogramSnoc(nicheKeys, i);
      HeldOfSnoc(tasks, i);
      i := i + 1;
    }
    assert tasks[..i] == tasks && statusKeys[..i] == statusKeys && nicheKeys[..i] == nicheKeys;
  }

  /** The loop over the posts: status counts. */
  method CountPosts(posts: seq<Post>) returns (postStatuses: map<string, nat>)
    ensures postStatuses == Histogram(PostKeys(posts))
  {
    postStatuses := map[];
    ghost var postKeys := PostKeys(posts);
    var j := 0;
    while j < |posts|
      invariant 0 <= j <= |posts|
      invariant postStatuses == Histogram(postKeys[..j])
    {
      var s := OrUnknown(posts[j].status);
      postStatuses := Bump(postStatuses, s);
      HistogramSnoc(postKeys, j);
      j := j + 1;
    }
    assert postKeys[..j] == postKeys;
  }

  /** The GET handler. */
  method Get(authenticated: bool, stateFile: Option<State>, heartbeatFile: Option<Json>)
    returns (response: Response, filesRead: seq<DataFile>)
    ensures !authenticated ==> response == UNAUTHORIZED && filesRead == []
    ensures authenticated ==> filesRead == [StateFile, HeartbeatFile]
    ensures authenticated && stateFile.None? ==> response == NO_STATE
    ensures authenticated && stateFile.Some? ==>
      response == Response(200, SummaryOf(stateFile.value, heartbeatFile))
  {
    filesRead := [];
    if !authenticated {
      return UNAUTHORIZED, filesRead;
    }

    var state := stateFile;
    filesRead := filesRead + [StateFile];
    var heartbeat := heartbeatFile;
    filesRead := filesRead + [HeartbeatFile];

    if state.None? {
      return NO_STATE, filesRead;
    }

    var tasks := if state.value.tasks.Some? then state.value.tasks.value else [];
    var taskStatuses, nicheBreakdown, heldTasks := CountTasks(tasks);
    var posts := if state.value.posts.Some? then state.value.posts.value else [];
    var postStatuses := CountPosts(posts);

    response := Response(200, Summary(
      state.value.date, state.value.status, state.value.updatedAt, state.value.stats,
      TaskSummary(|tasks|, taskStatuses, nicheBreakdown),
      PostSummary(|posts|, postStatuses),
      heldTasks,
      heartbeat));
  }
}
