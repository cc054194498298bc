/**
 Planning a job: how many shards a task is split into, and which node each planned task goes to.
 Handing every next task to the least loaded node is optimal: no other assignment of as many tasks
 ends with a lower peak.
*/
module Planner {
  import opened Sequences
  import opened TaskQueue
  import opened TaskStore

  /* ----- The greedy choice is optimal ----- */

  function Count(plan: seq<NodeId>, n: NodeId): nat {
    if plan == [] then 0 else (if plan[0] == n then 1 else 0) + Count(plan[1..], n)
  }

  function Got(pending: map<NodeId, nat>, n: NodeId): nat {
    if n in pending then pending[n] else 0
  }

  /** Pending counts are the numbers of tasks planned so far, per node. */
  lemma {:induction false} PendingCounts(s: State, ids: seq<NodeId>, pending: map<NodeId, nat>, count: nat, n: NodeId)
    requires ids != []
    ensures var (plan, pending') := GreedyPlan(s, ids, pending, count);
      Got(pending', n) == Got(pending, n) + Count(plan, n)
    decreases count
  {
    if count > 0 {
      var chosen := LeastLoaded(s, ids, pending);
      PendingCounts(s, ids, Bump(pending, chosen), count - 1, n);
      var rest := GreedyPlan(s, ids, Bump(pending, chosen), count - 1);
      assert ([chosen] + rest.0)[1..] == rest.0;
    }
  }

  /** A node given work in this pass was the least loaded when it got its last task. */
  ghost predicate Even(s: State, ids: seq<NodeId>, pending: map<NodeId, nat>) {
    forall n, m :: n in ids && m in ids && Got(pending, n) > 0 ==> Load(s, pending, n) <= Load(s, pending, m) + 1
  }

  lemma {:induction false} GreedyEven(s: State, ids: seq<NodeId>, pending: map<NodeId, nat>, count: nat)
    requires ids != [] && Even(s, ids, pending)
    ensures Even(s, ids, GreedyPlan(s, ids, pending, count).1)
    decreases count
  {
    if count > 0 {
      var chosen := LeastLoaded(s, ids, pending);
      var next := Bump(pending, chosen);
      forall n, m | n in ids && m in ids && Got(next, n) > 0 ensures Load(s, next, n) <= Load(s, next, m) + 1 {
        assert n != chosen ==> Load(s, next, n) == Load(s, pending, n) && Got(next, n) == Got(pending, n);
        assert Load(s, pending, chosen) <= Load(s, pending, m);
      }
      GreedyEven(s, ids, next, count - 1);
    }
  }

  /** How many tasks of `plan` fall on the nodes `ids`. */
  function CountAll(plan: seq<NodeId>, ids: seq<NodeId>): nat {
    if ids == [] then 0 else Count(plan, ids[0]) + CountAll(plan, ids[1..])
  }

  lemma {:induction false} CountAllCons(x: NodeId, plan: seq<NodeId>, ids: seq<NodeId>)
    requires Distinct(ids)
    ensures CountAll([x] + plan, ids) == CountAll(plan, ids) + if x in ids then 1 else 0
  {
    if ids != [] {
      assert ([x] + plan)[1..] == plan;
      CountAllCons(x, plan, ids[1..]);
    }
  }

  /** Every task of a plan over distinct nodes is counted once. */
  lemma {:induction false} CountAllTotal(plan: seq<NodeId>, ids: seq<NodeId>)
    requires Distinct(ids) && forall n :: n in plan ==> n in ids
    ensures CountAll(plan, ids) == |plan|
  {
    if plan == [] {
      CountAllEmpty(ids);
    } else {
      assert plan == [plan[0]] + plan[1..];
      CountAllCons(plan[0], plan[1..], ids);
      CountAllTotal(plan[1..], ids);
    }
  }

  lemma {:induction false} CountAllEmpty(ids: seq<NodeId>)
    ensures CountAll([], ids) == 0
  {
    if ids != [] { CountAllEmpty(ids[1..]); }
  }

  lemma {:induction false} CountAllLess(a: seq<NodeId>, b: seq<NodeId>, ids: seq<NodeId>)
    requires forall n :: n in ids ==> Count(a, n) <= Count(b, n)
    ensures CountAll(a, ids) <= CountAll(b, ids)
    ensures (exists n :: n in ids && Count(a, n) < Count(b, n)) ==> CountAll(a, ids) < CountAll(b, ids)
  {
    if ids != [] { CountAllLess(a, b, ids[1..]); }
  }

  /** What a node's queue holds once a plan is carried out. */
  function Final(s: State, plan: seq<NodeId>, n: NodeId): nat {
    |Queue(s, NodeQueue(n))| + Count(plan, n)
  }

  function Peak(s: State, plan: seq<NodeId>, ids: seq<NodeId>): nat {
    if ids == [] then 0
    else
      var rest := Peak(s, plan, ids[1..]);
      if Final(s, plan, ids[0]) >= rest then Final(s, plan, ids[0]) else rest
  }

  lemma {:induction false} PeakIsMax(s: State, plan: seq<NodeId>, ids: seq<NodeId>)
    requires ids != []
    ensures forall n :: n in ids ==> Final(s, plan, n) <= Peak(s, plan, ids)
    ensures exists n :: n in ids && Final(s, plan, n) == Peak(s, plan, ids)
  {
    if |ids| == 1 {
      assert ids[0] in ids;
    } else {
      PeakIsMax(s, plan, ids[1..]);
      assert ids == [ids[0]] + ids[1..];
      var n :| n in ids[1..] && Final(s, plan, n) == Peak(s, plan, ids[1..]);
      assert ids[0] in ids && n in ids;
    }
  }

  /**
   The greedy plan is optimal: whatever the queues held, no other assignment of as many tasks to
   the same nodes ends with a lower peak; and every node given work ends within one of every other.
  */
  lemma GreedyOptimal(s: State, ids: seq<NodeId>, count: nat, other: seq<NodeId>)
    requires ids != [] && Distinct(ids) && |other| == count && forall n :: n in other ==> n in ids
    ensures var plan := GreedyPlan(s, ids, map[], count).0;
      && |plan| == count
      && Peak(s, plan, ids) <= Peak(s, other, ids)
      && forall n, m :: n in ids && m in ids && n in plan ==> Final(s, plan, n) <= Final(s, plan, m) + 1
  {
    var (plan, pending) := GreedyPlan(s, ids, map[], count);
    GreedyEven(s, ids, map[], count);
    forall n ensures Got(pending, n) == Count(plan, n) && Load(s, pending, n) == Final(s, plan, n) {
      PendingCounts(s, ids, map[], count, n);
    }
    forall n ensures n in plan <==> Count(plan, n) > 0 { CountPositive(plan, n); }
    PeakNoLower(s, ids, plan, other);
  }

  lemma {:induction false} CountPositive(plan: seq<NodeId>, n: NodeId)
    ensures Count(plan, n) > 0 <==> n in plan
  {
    if plan != [] { CountPositive(plan[1..], n); }
  }

  /** Below an even plan's peak there is not room for as many tasks. */
  lemma PeakNoLower(s: State, ids: seq<NodeId>, plan: seq<NodeId>, other: seq<NodeId>)
    requires ids != [] && Distinct(ids) && |other| == |plan|
    requires (forall n :: n in other ==> n in ids) && (forall n :: n in plan ==> n in ids)
    requires forall n, m :: n in ids && m in ids && Count(plan, n) > 0 ==> Final(s, plan, n) <= Final(s, plan, m) + 1
    ensures Peak(s, plan, ids) <= Peak(s, other, ids)
  {
    PeakIsMax(s, plan, ids);
    PeakIsMax(s, other, ids);
    CountAllTotal(plan, ids);
    CountAllTotal(other, ids);
    var top :| top in ids && Final(s, plan, top) == Peak(s, plan, ids);
    if Final(s, other, top) < Final(s, plan, top) && forall n :: n in ids ==> Final(s, other, n) < Final(s, plan, top) {
      forall n | n in ids ensures Count(other, n) <= Count(plan, n) {
        assert Final(s, plan, top) <= Final(s, plan, n) + 1;
      }
      CountAllLess(other, plan, ids);
      assert false;
    }
  }

  /** The pending counts of a pass add up to the tasks planned. */
  lemma PendingSumsUp(s: State, ids: seq<NodeId>, count: nat)
    requires ids != [] && Distinct(ids)
    ensures CountAll(GreedyPlan(s, ids, map[], count).0, ids) == count
    ensures forall n: NodeId :: Got(GreedyPlan(s, ids, map[], count).1, n) == Count(GreedyPlan(s, ids, map[], count).0, n)
  {
    CountAllTotal(GreedyPlan(s, ids, map[], count).0, ids);
    forall n: NodeId ensures Got(GreedyPlan(s, ids, map[], count).1, n) == Count(GreedyPlan(s, ids, map[], count).0, n) {
      PendingCounts(s, ids, map[], count, n);
    }
  }

  /* ----- Shards and manifests ----- */

  datatype SplitHint = NoHint | Hint(dataParallel: bool, chunk: Option<int>, maxShards: Option<int>)
  datatype Entry = Entry(name: string, wasm: string, split: SplitHint)
  datatype Upload = Upload(filename: string, payload: Bytes)

  /** What Path(name).name and secure_filename make of a file name. */
  type Secure = string -> string

  /** Which manifest entry a planned task runs, and which of its shards. */
  datatype Label = Label(entry: nat, shard: nat, shardTotal: nat)
  datatype Shard = Shard(tag: Label, node: NodeId, upload: Upload)

  datatype UploadError = NoUploads | Unnamed(file: nat) | NotWasm(file: nat) | Duplicate(file: nat) | Empty(file: nat)
  datatype PlanError = BadUploads(why: UploadError) | Incomplete(entry: nat) | MissingUpload(entry: nat) | UnusedUploads | NothingToRun
  datatype Collected = Uploads(uploads: map<string, Bytes>) | Unusable(why: UploadError)
  datatype PlanResult = Plan(tasks: seq<Shard>) | Invalid(error: PlanError)

  function ShardCap(hint: SplitHint): nat
    requires hint.Hint?
  {
    var raw := if hint.chunk.Some? then hint.chunk else hint.maxShards;
    if raw.None? || raw.value <= 0 then 1 else raw.value
  }

  /** _planned_wasm_shards */
  function PlannedShards(hint: SplitHint, liveNodes: nat): (shards: nat)
    ensures 1 <= shards
    ensures shards > 1 <==> hint.Hint? && hint.dataParallel && ShardCap(hint) > 1 && liveNodes > 1
    ensures shards > 1 ==> shards <= liveNodes && shards <= ShardCap(hint) && (shards == liveNodes || shards == ShardCap(hint))
  {
    if hint.NoHint? || !hint.dataParallel then 1
    else if ShardCap(hint) < 2 || liveNodes < 2 then 1
    else if liveNodes < ShardCap(hint) then liveNodes else ShardCap(hint)
  }

  /** Case by case: `chunk` counts if it is there, else `max_shards`; neither, zero or less mean no split. */
  lemma PlannedShardsCases(chunk: int, cap: int, liveNodes: nat)
    ensures PlannedShards(NoHint, liveNodes) == 1 && PlannedShards(Hint(true, None, None), liveNodes) == 1
    ensures forall a, b :: PlannedShards(Hint(false, a, b), liveNodes) == 1
    ensures forall b :: PlannedShards(Hint(true, Some(chunk), b), liveNodes) == SplitBy(chunk, liveNodes)
    ensures PlannedShards(Hint(true, None, Some(cap)), liveNodes) == SplitBy(cap, liveNodes)
  {
  }

  function SplitBy(cap: int, liveNodes: nat): nat {
    if cap < 2 || liveNodes < 2 then 1 else if cap < liveNodes then cap else liveNodes
  }

  /* ----- Uploads ----- */

  predicate IsWasm(filename: string) {
    |filename| >= 5 && filename[|filename| - 5..] == ".wasm"
  }

  predicate UsableUpload(secure: Secure, u: Upload) {
    IsWasm(secure(u.filename)) && u.payload != []
  }

  /** Some artifacts, none of them empty, under usable names that differ. */
  predicate UsableUploads(secure: Secure, files: seq<Upload>) {
    && files != []
    && (forall i :: 0 <= i < |files| ==> UsableUpload(secure, files[i]))
    && forall i, j :: 0 <= i < j < |files| ==> secure(files[i].filename) != secure(files[j].filename)
  }

  function Filenames(secure: Secure, files: seq<Upload>): set<string> {
    set f | f in files :: secure(f.filename)
  }

  /** _collect_wasm_uploads */
  method CollectUploads(secure: Secure, files: seq<Upload>) returns (r: Collected)
    ensures r.Uploads? <==> UsableUploads(secure, files)
    ensures r.Uploads? ==> Holds(secure, r.uploads, files)
  {
    if files == [] { return Unusable(NoUploads); }
    var uploads: map<string, Bytes> := map[];
    for i := 0 to |files|
      invariant Collecting(secure, files, i, uploads)
    {
      CollectStep(secure, files, i, uploads);
      var filename := secure(files[i].filename);
      if filename == "" { return Unusable(Unnamed(i)); }
      if !IsWasm(filename) { return Unusable(NotWasm(i)); }
      if filename in uploads { return Unusable(Duplicate(i)); }
      if files[i].payload == [] { return Unusable(Empty(i)); }
      uploads := uploads[filename := files[i].payload];
    }
    assert uploads.Keys == Filenames(secure, files);
    r := Uploads(uploads);
  }

  /** The first `i` files are usable, under names that differ, and collected. */
  ghost predicate Collecting(secure: Secure, files: seq<Upload>, i: nat, uploads: map<string, Bytes>)
    requires i <= |files|
  {
    && uploads.Keys == (set j | 0 <= j < i :: secure(files[j].filename))
    && (forall j :: 0 <= j < i ==> UsableUpload(secure, files[j]) && uploads[secure(files[j].filename)] == files[j].payload)
    && forall j, k :: 0 <= j < k < i ==> secure(files[j].filename) != secure(files[k].filename)
  }

  lemma CollectStep(secure: Secure, files: seq<Upload>, i: nat, uploads: map<string, Bytes>)
    requires i < |files| && Collecting(secure, files, i, uploads)
    ensures var (filename, u) := (secure(files[i].filename), files[i]);
      if UsableUpload(secure, u) && filename !in uploads then Collecting(secure, files, i + 1, uploads[filename := u.payload])
      else !UsableUploads(secure, files)
  {
    var filename := secure(files[i].filename);
    if filename in uploads {
      var j :| 0 <= j < i && secure(files[j].filename) == filename;
    }
  }

  /* ----- Manifests ----- */

  predicate WellFormed(secure: Secure, entry: Entry, names: set<string>) {
    entry.name != "" && entry.wasm != "" && secure(entry.wasm) != "" && secure(entry.wasm) in names
  }

  datatype Found = Found(upload: Upload) | Failure(error: PlanError)

  /** The artifact an entry names, or what is wrong with the entry. */
  function FindUpload(secure: Secure, entry: Entry, e: nat, uploads: map<string, Bytes>): (r: Found)
    ensures r.Found? <==> WellFormed(secure, entry, uploads.Keys)
    ensures r.Found? ==> r.upload == Upload(secure(entry.wasm), uploads[secure(entry.wasm)])
  {
    var filename := secure(entry.wasm);
    if entry.name == "" || entry.wasm == "" || filename == "" then Failure(Incomplete(e))
    else if filename !in uploads then Failure(MissingUpload(e))
    else Found(Upload(filename, uploads[filename]))
  }

  /** What a manifest must be to be planned: usable uploads, named entries with their uploads, and no upload left over. */
  predicate ValidManifest(secure: Secure, entries: seq<Entry>, files: seq<Upload>) {
    && UsableUploads(secure, files)
    && entries != []
    && (forall e :: e in entries ==> WellFormed(secure, e, Filenames(secure, files)))
    && Filenames(secure, files) == set e | e in entries :: secure(e.wasm)
  }

  /** The task carries the artifact its entry names. */
  predicate Carries(secure: Secure, entries: seq<Entry>, files: seq<Upload>, task: Shard) {
    && task.tag.entry < |entries|
    && task.upload.filename == secure(entries[task.tag.entry].wasm)
    && exists f :: f in files && secure(f.filename) == task.upload.filename && f.payload == task.upload.payload
  }

  ghost predicate AllCarry(secure: Secure, entries: seq<Entry>, files: seq<Upload>, tasks: seq<Shard>) {
    forall t :: t in tasks ==> Carries(secure, entries, files, t)
  }

  ghost predicate Holds(secure: Secure, uploads: map<string, Bytes>, files: seq<Upload>) {
    && uploads.Keys == Filenames(secure, files)
    && forall f :: f in files ==> secure(f.filename) in uploads && uploads[secure(f.filename)] == f.payload
  }

  predicate TakenFrom(secure: Secure, entries: seq<Entry>, uploads: map<string, Bytes>, task: Shard) {
    && task.tag.entry < |entries|
    && task.upload.filename == secure(entries[task.tag.entry].wasm)
    && task.upload.filename in uploads && uploads[task.upload.filename] == task.upload.payload
  }

  lemma TakenCarry(secure: Secure, entries: seq<Entry>, uploads: map<string, Bytes>, files: seq<Upload>, tasks: seq<Shard>)
    requires Holds(secure, uploads, files) && forall t :: t in tasks ==> TakenFrom(secure, entries, uploads, t)
    ensures AllCarry(secure, entries, files, tasks)
  {
    forall t | t in tasks ensures Carries(secure, entries, files, t) {
      assert TakenFrom(secure, entries, uploads, t);
      var f :| f in files && secure(f.filename) == t.upload.filename;
      assert f.payload == t.upload.payload;
    }
  }

  ghost function Named(secure: Secure, entries: seq<Entry>, done: nat): set<string>
    requires done <= |entries|
  {
    set i | 0 <= i < done :: secure(entries[i].wasm)
  }

  lemma NamedStep(secure: Secure, entries: seq<Entry>, e: nat)
    requires e < |entries|
    ensures Named(secure, entries, e + 1) == Named(secure, entries, e) + {secure(entries[e].wasm)}
  {
  }

  function NodesOf(tasks: seq<Shard>): seq<NodeId> {
    if tasks == [] then [] else NodesOf(tasks[..|tasks| - 1]) + [tasks[|tasks| - 1].node]
  }

  function LabelsOf(tasks: seq<Shard>): seq<Label> {
    if tasks == [] then [] else LabelsOf(tasks[..|tasks| - 1]) + [tasks[|tasks| - 1].tag]
  }

  /** The first `k` shards of one entry. */
  function EntryLabels(entry: nat, total: nat, k: nat): (labels: seq<Label>)
    ensures |labels| == k
  {
    if k == 0 then [] else EntryLabels(entry, total, k - 1) + [Label(entry, k - 1, total)]
  }

  /** The shards of the first `done` entries: entry by entry, shard by shard. */
  function Labels(entries: seq<Entry>, liveNodes: nat, done: nat): seq<Label>
    requires done <= |entries|
  {
    if done == 0 then []
    else
      var total := PlannedShards(entries[done - 1].split, liveNodes);
      Labels(entries, liveNodes, done - 1) + EntryLabels(done - 1, total, total)
  }

  /** Every shard of every entry is planned exactly once, and nothing else is. */
  lemma {:induction false} LabelsExact(entries: seq<Entry>, liveNodes: nat, done: nat, tag: Label)
    requires done <= |entries|
    ensures tag in Labels(entries, liveNodes, done) <==>
      tag.entry < done && tag.shardTotal == PlannedShards(entries[tag.entry].split, liveNodes) && tag.shard < tag.shardTotal
    ensures Distinct(Labels(entries, liveNodes, done))
  {
    if done > 0 {
      var total := PlannedShards(entries[done - 1].split, liveNodes);
      var before, mine := Labels(entries, liveNodes, done - 1), EntryLabels(done - 1, total, total);
      LabelsExact(entries, liveNodes, done - 1, tag);
      EntryLabelsExact(done - 1, total, total);
      assert tag in before + mine <==> tag in before || tag in mine;
      forall l | l in before ensures l !in mine { LabelsExact(entries, liveNodes, done - 1, l); }
      assert forall i :: 0 <= i < |before| ==> before[i] in before;
    }
  }

  lemma {:induction false} EntryLabelsExact(entry: nat, total: nat, k: nat)
    ensures forall tag :: tag in EntryLabels(entry, total, k) <==>
      tag.entry == entry && tag.shardTotal == total && tag.shard < k
    ensures Distinct(EntryLabels(entry, total, k))
  {
    if k > 0 { EntryLabelsExact(entry, total, k - 1); }
  }

  type Pass = (seq<NodeId>, map<NodeId, nat>)

  function Before(n: NodeId, r: Pass): Pass {
    ([n] + r.0, r.1)
  }

  /** One more task at the end of a pass. */
  function Extend(s: State, ids: seq<NodeId>, r: Pass): Pass
    requires ids != []
  {
    (r.0 + [LeastLoaded(s, ids, r.1)], Bump(r.1, LeastLoaded(s, ids, r.1)))
  }

  lemma BeforeExtend(s: State, ids: seq<NodeId>, n: NodeId, r: Pass)
    requires ids != []
    ensures Before(n, Extend(s, ids, r)) == Extend(s, ids, Before(n, r))
  {
    assert [n] + (r.0 + [LeastLoaded(s, ids, r.1)]) == ([n] + r.0) + [LeastLoaded(s, ids, r.1)];
  }

  /** Greedy planning goes on from where it stopped. */
  lemma {:induction false} GreedySnoc(s: State, ids: seq<NodeId>, pending: map<NodeId, nat>, count: nat)
    requires ids != []
    ensures GreedyPlan(s, ids, pending, count + 1) == Extend(s, ids, GreedyPlan(s, ids, pending, count))
    decreases count
  {
    var chosen := LeastLoaded(s, ids, pending);
    var next := Bump(pending, chosen);
    assert GreedyPlan(s, ids, pending, count + 1) == Before(chosen, GreedyPlan(s, ids, next, count));
    if count == 0 {
      assert [chosen] + [] == [] + [chosen];
    } else {
      GreedySnoc(s, ids, next, count - 1);
      BeforeExtend(s, ids, chosen, GreedyPlan(s, ids, next, count - 1));
      assert GreedyPlan(s, ids, pending, count) == Before(chosen, GreedyPlan(s, ids, next, count - 1));
    }
  }

  /** Tasks and pending counts agree with one greedy pass so far. */
  ghost predicate Greedy(s: State, ids: seq<NodeId>, tasks: seq<Shard>, pending: map<NodeId, nat>)
    requires ids != []
  {
    GreedyPlan(s, ids, map[], |tasks|) == (NodesOf(tasks), pending)
  }

  /** The shards of one manifest entry. */
  method PlanEntry(store: Store, e: nat, upload: Upload, total: nat, ids: seq<NodeId>, tasks: seq<Shard>, pending: map<NodeId, nat>)
    returns (tasks': seq<Shard>, pending': map<NodeId, nat>)
    requires ids != [] && Greedy(store.View(), ids, tasks, pending)
    ensures Greedy(store.View(), ids, tasks', pending')
    ensures LabelsOf(tasks') == LabelsOf(tasks) + EntryLabels(e, total, total)
    ensures |tasks'| == |tasks| + total
    ensures forall t :: t in tasks' ==> t in tasks || (t.tag.entry == e && t.upload == upload)
  {
    tasks', pending' := tasks, pending;
    for k := 0 to total
      invariant LabelsOf(tasks') == LabelsOf(tasks) + EntryLabels(e, total, k)
      invariant Greedy(store.View(), ids, tasks', pending')
      invariant |tasks'| == |tasks| + k
      invariant forall t :: t in tasks' ==> t in tasks || (t.tag.entry == e && t.upload == upload)
    {
      GreedySnoc(store.View(), ids, map[], |tasks'|);
      var chosen;
      chosen, pending' := store.SelectLeastLoadedNode(ids, pending');
      ghost var before := tasks';
      tasks' := tasks' + [Shard(Label(e, k, total), chosen, upload)];
      assert tasks'[..|tasks'| - 1] == before;
    }
  }

  /** The loop over the entries: their tasks, pass and used uploads, or the first entry that is wrong. */
  method PlanEntries(store: Store, secure: Secure, entries: seq<Entry>, uploads: map<string, Bytes>, ids: seq<NodeId>)
    returns (r: PlanResult, used: set<string>)
    requires ids != []
    ensures r.Plan? <==> forall i :: 0 <= i < |entries| ==> WellFormed(secure, entries[i], uploads.Keys)
    ensures r.Plan? ==> used == Named(secure, entries, |entries|) && (r.tasks == [] ==> entries == [])
    ensures r.Plan? ==> LabelsOf(r.tasks) == Labels(entries, |ids|, |entries|)
    ensures r.Plan? ==> NodesOf(r.tasks) == GreedyPlan(store.View(), ids, map[], |r.tasks|).0
    ensures r.Plan? ==> forall t :: t in r.tasks ==> TakenFrom(secure, entries, uploads, t)
  {
    var pending: map<NodeId, nat> := map[];
    var tasks: seq<Shard> := [];
    used := {};
    for e := 0 to |entries|
      invariant forall i :: 0 <= i < e ==> WellFormed(secure, entries[i], uploads.Keys)
      invariant used == Named(secure, entries, e)
      invariant LabelsOf(tasks) == Labels(entries, |ids|, e)
      invariant Greedy(store.View(), ids, tasks, pending)
      invariant forall t :: t in tasks ==> TakenFrom(secure, entries, uploads, t)
      invariant e <= |tasks|
    {
      var found := FindUpload(secure, entries[e], e, uploads);
      if found.Failure? {
        return Invalid(found.error), used;
      }
      NamedStep(secure, entries, e);
      used := used + {found.upload.filename};
      tasks, pending := PlanEntry(store, e, found.upload, PlannedShards(entries[e].split, |ids|), ids, tasks, pending);
    }
    r := Plan(tasks);
  }

  /**
   _plan_wasm_tasks: it succeeds exactly on valid manifests with usable uploads, plans the shards of every
   entry in order, each with the entry's artifact, and places them all by one greedy pass.
  */
  method PlanWasmTasks(store: Store, secure: Secure, entries: seq<Entry>, files: seq<Upload>, ids: seq<NodeId>)
    returns (r: PlanResult)
    requires ids != []
    ensures r.Plan? <==> ValidManifest(secure, entries, files)
    ensures r.Plan? ==> LabelsOf(r.tasks) == Labels(entries, |ids|, |entries|)
    ensures r.Plan? ==> NodesOf(r.tasks) == GreedyPlan(store.View(), ids, map[], |r.tasks|).0
    ensures r.Plan? ==> AllCarry(secure, entries, files, r.tasks)
  {
    var collected := CollectUploads(secure, files);
    if collected.Unusable? { return Invalid(BadUploads(collected.why)); }
    var uploads, used := collected.uploads, {};
    r, used := PlanEntries(store, secure, entries, uploads, ids);
    ValidIff(secure, entries, files);
    if r.Plan? {
      TakenCarry(secure, entries, uploads, files, r.tasks);
      if uploads.Keys - used != {} {
        r := Invalid(UnusedUploads);
      } else if r.tasks == [] {
        r := Invalid(NothingToRun);
      }
    }
  }

  /** Validity, as far as the entries go one by one and then as the uploads left over. */
  lemma ValidIff(secure: Secure, entries: seq<Entry>, files: seq<Upload>)
    requires UsableUploads(secure, files)
    ensures var names := Filenames(secure, files);
      ValidManifest(secure, entries, files) <==>
        && entries != []
        && (forall i :: 0 <= i < |entries| ==> WellFormed(secure, entries[i], names))
        && names - Named(secure, entries, |entries|) == {}
  {
    var (names, used) := (Filenames(secure, files), Named(secure, entries, |entries|));
    assert used == set e | e in entries :: secure(e.wasm);
    if forall i :: 0 <= i < |entries| ==> WellFormed(secure, entries[i], names) {
      assert used <= names;
      assert names - used == {} ==> forall u :: u in names ==> u in used || u in names - used;
      assert names - used == {} ==> names == used;
    } else {
      var i :| 0 <= i < |entries| && !WellFormed(secure, entries[i], names);
      assert entries[i] in entries;
    }
  }
}
