/** The parallel upload driver: a file split over partial uploads, one worker each, then concatenation. */
module ParallelUpload {
  import opened Text
  import opened Relay
  import opened UploadService

  /* ---- splitting the total ---- */

  /** Floor division, for a positive divisor; the last part takes the remainder. */
  function PartSizes(total: int, parts: nat): (sizes: seq<int>)
    requires parts > 0
    ensures |sizes| == parts
  {
    var base := total / parts;
    seq(parts, i => if i == parts - 1 then base + (total - base * parts) else base)
  }

  function Sum(xs: seq<int>): int {
    if xs == [] then 0 else xs[0] + Sum(xs[1..])
  }

  lemma {:induction false} SumSame(xs: seq<int>, base: int)
    requires forall i :: 0 <= i < |xs| - 1 ==> xs[i] == base
    requires xs != []
    ensures Sum(xs) == base * (|xs| - 1) + xs[|xs| - 1]
  {
    if |xs| > 1 {
      SumSame(xs[1..], base);
      assert base * (|xs| - 1) == base * (|xs| - 2) + base;
    } else {
      assert xs[1..] == [];
    }
  }

  /** The parts add up, and the server, which refuses an empty upload, admits all of them exactly
      when there is a byte for each. */
  lemma SizesCover(total: int, parts: nat)
    requires parts > 0
    ensures Sum(PartSizes(total, parts)) == total
    ensures (forall i :: 0 <= i < parts ==> PartSizes(total, parts)[i] > 0) <==> total >= parts
  {
    var sizes := PartSizes(total, parts);
    var base := total / parts;
    SumSame(sizes, base);
    assert base * parts == base * (parts - 1) + base;
    assert total == base * parts + total % parts;
    BaseSign(total, parts, base);
    assert sizes[0] == if parts == 1 then base + (total - base * parts) else base;
  }

  lemma BaseSign(total: int, parts: nat, base: int)
    requires parts > 0 && base == total / parts
    ensures base >= 1 <==> total >= parts
  {
    Multiples(base, parts);
    assert total == base * parts + total % parts;
  }

  lemma Multiples(d: int, n: nat)
    ensures d >= 1 ==> d * n >= n
    ensures d <= 0 ==> d * n <= 0
    ensures d <= -1 ==> d * n + n <= 0
  {
  }

  /* ---- the byte generator ---- */

  function ItemAt<T>(seed: seq<T>, k: nat): T
    requires seed != []
  {
    seed[k % |seed|]
  }

  /** Bytes `start` to `end` of the seed block repeated for ever. */
  function Repeated<T>(seed: seq<T>, start: nat, end: nat): (r: seq<T>)
    requires seed != [] && start <= end
    ensures |r| == end - start
  {
    seq(end - start, k requires 0 <= k => ItemAt(seed, start + k))
  }

  lemma ModAhead(pos: nat, k: nat, n: nat)
    requires n > 0 && pos % n + k < n
    ensures (pos + k) % n == pos % n + k
  {
    var q := pos / n;
    assert pos + k == q * n + (pos % n + k);
    ModUnique(pos + k, q, pos % n + k, n);
  }

  lemma ModUnique(x: int, q: int, r: int, n: nat)
    requires n > 0 && x == q * n + r && 0 <= r < n
    ensures x % n == r
  {
    var d := x / n - q;
    assert x == (x / n) * n + x % n;
    assert d * n == r - x % n;
    Multiples(d, n);
  }

  lemma RepeatedJoins(seed: Bytes, start: nat, mid: nat, end: nat)
    requires seed != [] && start <= mid <= end
    ensures Repeated(seed, start, mid) + Repeated(seed, mid, end) == Repeated(seed, start, end)
  {
  }

  /** Any sub-range is the slice of the whole stream. */
  lemma RepeatedSlice(seed: Bytes, start: nat, end: nat, size: nat)
    requires seed != [] && start <= end <= size
    ensures Repeated(seed, start, end) == Repeated(seed, 0, size)[start..end]
  {
  }

  lemma BlockIsRepeated(seed: Bytes, pos: nat, blockOff: nat, take: nat)
    requires seed != [] && blockOff == pos % |seed| && blockOff + take <= |seed|
    ensures seed[blockOff..blockOff + take] == Repeated(seed, pos, pos + take)
  {
    var block := seed[blockOff..blockOff + take];
    forall k | 0 <= k < take
      ensures block[k] == Repeated(seed, pos, pos + take)[k]
    {
      ByteInBlock(seed, pos, blockOff, k);
    }
  }

  lemma ByteInBlock(seed: Bytes, pos: nat, blockOff: nat, k: nat)
    requires seed != [] && blockOff == pos % |seed| && blockOff + k < |seed|
    ensures ItemAt(seed, pos + k) == seed[blockOff + k]
  {
    ModAhead(pos, k, |seed|);
  }

  method Gen(seed: Bytes, start: nat, end: nat) returns (out: Bytes)
    requires seed != [] && start <= end
    ensures out == Repeated(seed, start, end)
  {
    out := [];
    var pos := start;
    while pos < end
      invariant start <= pos <= end
      invariant out == Repeated(seed, start, pos)
    {
      var blockOff := pos % |seed|;
      var take := if |seed| - blockOff < end - pos then |seed| - blockOff else end - pos;
      BlockIsRepeated(seed, pos, blockOff, take);
      RepeatedJoins(seed, start, pos, pos + take);
      out := out + seed[blockOff..blockOff + take];
      pos := pos + take;
    }
  }

  /* ---- the hashed stream ---- */

  predicate Seeded(seeds: seq<Bytes>, sizes: seq<nat>) {
    |seeds| == |sizes| && forall i :: 0 <= i < |seeds| ==> seeds[i] != []
  }

  function PartStreams(seeds: seq<Bytes>, sizes: seq<nat>): (parts: seq<Bytes>)
    requires Seeded(seeds, sizes)
    ensures |parts| == |sizes|
  {
    seq(|sizes|, i requires 0 <= i < |sizes| && Seeded(seeds, sizes) => Repeated(seeds[i], 0, sizes[i]))
  }

  /** The whole file: the parts' streams in order. */
  function Stream(seeds: seq<Bytes>, sizes: seq<nat>): Bytes
    requires Seeded(seeds, sizes)
  {
    Flatten(PartStreams(seeds, sizes))
  }

  /** What the driver feeds its hasher, chunk by chunk and part by part. */
  method HashedBytes(seeds: seq<Bytes>, sizes: seq<nat>, chunk: nat) returns (fed: Bytes)
    requires Seeded(seeds, sizes) && chunk > 0
    ensures fed == Stream(seeds, sizes)
  {
    fed := [];
    ghost var parts := PartStreams(seeds, sizes);
    for i := 0 to |sizes|
      invariant fed == Flatten(parts[..i])
    {
      var off := 0;
      while off < sizes[i]
        invariant 0 <= off <= sizes[i]
        invariant fed == Flatten(parts[..i]) + Repeated(seeds[i], 0, off)
      {
        var end := if off + chunk < sizes[i] then off + chunk else sizes[i];
        var data := Gen(seeds[i], off, end);
        RepeatedJoins(seeds[i], 0, off, end);
        assert fed + data == Flatten(parts[..i]) + (Repeated(seeds[i], 0, off) + data);
        fed := fed + data;
        off := end;
      }
      FlattenSnoc(parts, i);
    }
    assert parts[..|sizes|] == parts;
  }

  /* ---- one worker ---- */

  /** The loop of one worker, left alone: it fills its part and touches no other upload. */
  method UploadPart(service: FileUploadService, loc: Id, owner: string, seed: Bytes, size: nat, chunk: nat)
    returns (ok: bool)
    requires seed != [] && chunk > 0 && loc in service.sessions
    requires service.sessions[loc] == Session(owner, size, true, "", None, Initialized, 0, [])
    modifies service`sessions
    ensures ok && loc in service.sessions && service.sessions[loc].file == Repeated(seed, 0, size)
    ensures service.sessions[loc].received == size && service.sessions - {loc} == old(service.sessions) - {loc}
  {
    var off := 0;
    while off < size
      invariant 0 <= off <= size && loc in service.sessions && service.sessions[loc].owner == owner && Alive(service.sessions[loc])
      invariant service.sessions[loc].file == Repeated(seed, 0, off) && service.sessions[loc].received == off
      invariant service.sessions - {loc} == old(service.sessions) - {loc}
    {
      var end := if off + chunk < size then off + chunk else size;
      var data := Gen(seed, off, end);
      RepeatedJoins(seed, 0, off, end);
      var file := service.sessions[loc].file;
      assert file[..off] == file;
      var answer := service.AppendBytes(loc, owner, off, data);
      if answer.Err? {
        return false;
      }
      off := answer.value;
    }
    return true;
  }

  /* ---- the workers ---- */

  datatype Job = Job(hash: Bytes -> Digest, owner: string, seeds: seq<Bytes>, sizes: seq<nat>, chunk: nat, locs: seq<Id>)

  ghost predicate JobOk(job: Job) {
    && Seeded(job.seeds, job.sizes) && job.chunk > 0 && |job.locs| == |job.sizes| > 0
    && (forall i, j :: 0 <= i < j < |job.locs| ==> job.locs[i] != job.locs[j])
  }

  /** The service's sessions, and the offset each worker last got back. */
  datatype Driver = Driver(t: Table, offs: seq<int>)

  /** A PATCH by one worker, or anything happening to other sessions. */
  datatype Move = Worker(i: nat) | Elsewhere(t: Table)

  function ChunkEnd(job: Job, i: nat, off: int): int
    requires i < |job.sizes|
  {
    if off + job.chunk < job.sizes[i] then off + job.chunk else job.sizes[i]
  }

  predicate Allowed(job: Job, d: Driver, m: Move) {
    match m
    case Worker(i) => i < |job.sizes| && i < |d.offs| && 0 <= d.offs[i] < job.sizes[i]
    case Elsewhere(t) => Valid(t) && forall i :: 0 <= i < |job.locs| ==> job.locs[i] in t && job.locs[i] in d.t && t[job.locs[i]] == d.t[job.locs[i]]
  }

  /** A worker sends the next chunk at its offset and keeps the offset the service answers. */
  function Next(job: Job, d: Driver, m: Move): Driver
    requires Seeded(job.seeds, job.sizes) && job.chunk > 0 && |job.locs| == |job.sizes| && Allowed(job, d, m)
  {
    match m
    case Elsewhere(t) => d.(t := t)
    case Worker(i) =>
      var off := d.offs[i];
      var data := Repeated(job.seeds[i], off, ChunkEnd(job, i, off));
      if AppendError(d.t, job.locs[i], job.owner, off) == None
      then Driver(AfterAppend(d.t, job.locs[i], job.owner, off, data), d.offs[i := off + |data|])
      else d
  }

  /** The partial upload of worker `i` holds the first `off` bytes of its stream. */
  predicate Holds(job: Job, t: Table, i: nat, off: int)
    requires Seeded(job.seeds, job.sizes) && |job.locs| == |job.sizes| && i < |job.sizes|
  {
    && job.locs[i] in t && t[job.locs[i]].owner == job.owner && 0 <= off <= job.sizes[i]
    && var s := t[job.locs[i]];
       s.partial && Alive(s) && s.total == job.sizes[i] && s.received == off && s.file == Repeated(job.seeds[i], 0, off)
  }

  ghost predicate Inv(job: Job, d: Driver) {
    && JobOk(job) && Valid(d.t) && |d.offs| == |job.sizes|
    && forall i :: 0 <= i < |job.sizes| ==> Holds(job, d.t, i, d.offs[i])
  }

  lemma WorkerKeepsInv(job: Job, d: Driver, i: nat)
    requires Inv(job, d) && Allowed(job, d, Worker(i))
    ensures Inv(job, Next(job, d, Worker(i)))
    ensures Next(job, d, Worker(i)).offs == d.offs[i := ChunkEnd(job, i, d.offs[i])]
  {
    var off := d.offs[i];
    var end := ChunkEnd(job, i, off);
    assert Holds(job, d.t, i, off);
    RepeatedJoins(job.seeds[i], 0, off, end);
    var file := d.t[job.locs[i]].file;
    assert file[..off] == file;
  }

  /* ---- every schedule ends ---- */

  /** Chunks still to send for `rest` bytes. */
  function ChunksFor(rest: int, chunk: nat): nat
    requires chunk > 0
    decreases if rest < 0 then 0 else rest
  {
    if rest <= 0 then 0 else 1 + ChunksFor(rest - chunk, chunk)
  }

  function ToSend(sizes: seq<nat>, offs: seq<int>, chunk: nat): nat
    requires |sizes| == |offs| && chunk > 0
  {
    if sizes == [] then 0 else ChunksFor(sizes[0] - offs[0], chunk) + ToSend(sizes[1..], offs[1..], chunk)
  }

  lemma {:induction false} ToSendAfter(sizes: seq<nat>, offs: seq<int>, chunk: nat, i: nat, off: int)
    requires |sizes| == |offs| && chunk > 0 && i < |sizes|
    ensures ToSend(sizes, offs[i := off], chunk)
         == ToSend(sizes, offs, chunk) - ChunksFor(sizes[i] - offs[i], chunk) + ChunksFor(sizes[i] - off, chunk)
  {
    if i == 0 {
      assert offs[0 := off][1..] == offs[1..];
    } else {
      ToSendAfter(sizes[1..], offs[1..], chunk, i - 1, off);
      assert offs[i := off][1..] == offs[1..][i - 1 := off];
    }
  }

  lemma {:induction false} NothingToSend(sizes: seq<nat>, offs: seq<int>, chunk: nat)
    requires |sizes| == |offs| && chunk > 0 && forall i :: 0 <= i < |sizes| ==> offs[i] <= sizes[i]
    ensures ToSend(sizes, offs, chunk) == 0 <==> forall i :: 0 <= i < |sizes| ==> offs[i] == sizes[i]
  {
    if sizes != [] {
      NothingToSend(sizes[1..], offs[1..], chunk);
      assert forall i :: 1 <= i < |sizes| ==> sizes[i] == sizes[1..][i - 1] && offs[i] == offs[1..][i - 1];
    }
  }

  function WorkerMoves(moves: seq<Move>): nat {
    if moves == [] then 0 else WorkerMoves(moves[..|moves| - 1]) + if moves[|moves| - 1].Worker? then 1 else 0
  }

  ghost predicate IsRun(job: Job, ds: seq<Driver>, moves: seq<Move>) {
    && JobOk(job) && |ds| == |moves| + 1
    && forall k :: 0 <= k < |moves| ==> Allowed(job, ds[k], moves[k]) && ds[k + 1] == Next(job, ds[k], moves[k])
  }

  /** All partial uploads just created. */
  ghost predicate Created(job: Job, d: Driver) {
    Inv(job, d) && forall i :: 0 <= i < |d.offs| ==> d.offs[i] == 0
  }

  lemma MoveKeepsInv(job: Job, d: Driver, m: Move)
    requires Inv(job, d) && Allowed(job, d, m)
    ensures Inv(job, Next(job, d, m))
    ensures ToSend(job.sizes, Next(job, d, m).offs, job.chunk) + (if m.Worker? then 1 else 0) == ToSend(job.sizes, d.offs, job.chunk)
  {
    match m
    case Worker(i) =>
      WorkerKeepsInv(job, d, i);
      ToSendAfter(job.sizes, d.offs, job.chunk, i, ChunkEnd(job, i, d.offs[i]));
    case Elsewhere(t) =>
      assert forall i :: 0 <= i < |job.sizes| && Holds(job, d.t, i, d.offs[i]) ==> Holds(job, t, i, d.offs[i]);
  }

  /** The driver's create requests, one part after the other; `None` when one is refused. */
  function CreateAll(t: Table, owner: string, locs: seq<Id>, sizes: seq<int>): Option<Table>
    requires |locs| == |sizes|
    decreases |sizes|
  {
    if sizes == [] then Some(t)
    else if CreateError(sizes[0]) != None then None
    else CreateAll(AfterCreatePartial(t, locs[0], owner, sizes[0]), owner, locs[1..], sizes[1..])
  }

  lemma {:induction false} CreateAllMeaning(t: Table, owner: string, locs: seq<Id>, sizes: seq<int>)
    requires |locs| == |sizes| && Valid(t) && forall i, j :: 0 <= i < j < |locs| ==> locs[i] != locs[j]
    ensures CreateAll(t, owner, locs, sizes).Some? <==> forall i :: 0 <= i < |sizes| ==> sizes[i] > 0
    ensures CreateAll(t, owner, locs, sizes).Some? ==> Valid(CreateAll(t, owner, locs, sizes).value)
    ensures CreateAll(t, owner, locs, sizes).Some? ==> forall i :: 0 <= i < |locs| ==>
      locs[i] in CreateAll(t, owner, locs, sizes).value
      && CreateAll(t, owner, locs, sizes).value[locs[i]] == Session(owner, sizes[i], true, "", None, Initialized, 0, [])
    ensures CreateAll(t, owner, locs, sizes).Some? ==> forall id :: id in t && id !in locs ==>
      id in CreateAll(t, owner, locs, sizes).value && CreateAll(t, owner, locs, sizes).value[id] == t[id]
    decreases |sizes|
  {
    if sizes != [] && sizes[0] > 0 {
      CreateAllMeaning(AfterCreatePartial(t, locs[0], owner, sizes[0]), owner, locs[1..], sizes[1..]);
      assert forall i :: 1 <= i < |sizes| ==> sizes[i] == sizes[1..][i - 1] && locs[i] == locs[1..][i - 1];
    }
  }

  /** The service admits every part exactly when the total has a byte for each. */
  lemma PartsAdmitted(t: Table, owner: string, locs: seq<Id>, total: int)
    requires locs != [] && Valid(t) && forall i, j :: 0 <= i < j < |locs| ==> locs[i] != locs[j]
    ensures CreateAll(t, owner, locs, PartSizes(total, |locs|)).Some? <==> total >= |locs|
  {
    SizesCover(total, |locs|);
    CreateAllMeaning(t, owner, locs, PartSizes(total, |locs|));
  }

  /** Then the workers start from empty parts. */
  lemma DriverStarts(job: Job, t: Table)
    requires JobOk(job) && Valid(t) && CreateAll(t, job.owner, job.locs, job.sizes).Some?
    ensures Created(job, Driver(CreateAll(t, job.owner, job.locs, job.sizes).value, seq(|job.sizes|, _ => 0)))
  {
    CreateAllMeaning(t, job.owner, job.locs, job.sizes);
    var d := Driver(CreateAll(t, job.owner, job.locs, job.sizes).value, seq(|job.sizes|, _ => 0));
    forall i | 0 <= i < |job.sizes|
      ensures Holds(job, d.t, i, d.offs[i])
    {
      assert job.locs[i] in d.t;
    }
  }

  /** Under every interleaving each part holds a prefix of its own stream, and the number of PATCH
      requests sent and still to send is the same throughout. */
  lemma {:induction false} EveryInterleaving(job: Job, ds: seq<Driver>, moves: seq<Move>, k: nat)
    requires IsRun(job, ds, moves) && Created(job, ds[0]) && k <= |moves|
    ensures Inv(job, ds[k])
    ensures WorkerMoves(moves[..k]) + ToSend(job.sizes, ds[k].offs, job.chunk) == ToSend(job.sizes, ds[0].offs, job.chunk)
  {
    hide Next, Allowed, Holds, ToSend;
    if k > 0 {
      EveryInterleaving(job, ds, moves, k - 1);
      MoveKeepsInv(job, ds[k - 1], moves[k - 1]);
      assert moves[..k][..k - 1] == moves[..k - 1];
    }
  }

  /* ---- concatenation of the finished parts ---- */

  predicate Finished(job: Job, d: Driver) {
    |d.offs| == |job.sizes| && forall i :: 0 <= i < |job.sizes| ==> d.offs[i] == job.sizes[i]
  }

  lemma PartsReady(job: Job, d: Driver, newId: Id, target: Path, expected: Option<Digest>)
    requires Inv(job, d) && Finished(job, d) && newId !in d.t
    ensures ConcatError(d.t, job.owner, job.locs, None) == None
    ensures AfterConcat(d.t, job.owner, job.locs, newId, None, target, expected)[newId].file == Stream(job.seeds, job.sizes)
  {
    forall i | 0 <= i < |job.locs|
      ensures job.locs[i] in d.t && d.t[job.locs[i]].owner == job.owner && Holds(job, d.t, i, job.sizes[i])
    {
      assert Holds(job, d.t, i, d.offs[i]);
    }
    ConcatPromise(d.t, job.owner, job.locs, newId, None, target, expected);
    assert FilesOf(d.t, job.locs) == PartStreams(job.seeds, job.sizes);
  }

  /** Merging the parts under their digest and completing the whole puts the hashed stream at the
      target, as long as the cluster takes every block. */
  ghost predicate Arrives(job: Job, t: Table, cluster: Tree, newId: Id, target: Path, block: Block, fails: nat -> bool)
    requires Seeded(job.seeds, job.sizes)
  {
    var stream := Stream(job.seeds, job.sizes);
    var whole := AfterConcat(t, job.owner, job.locs, newId, None, target, Some(job.hash(stream)));
    var done := AfterComplete(job.hash, block, fails, whole, newId, job.owner);
    ConcatError(t, job.owner, job.locs, None) == None && newId in done
    && ((forall n :: !fails(n)) ==>
          && done[newId].state == Written
          && ClusterAfterComplete(job.hash, block, fails, whole, cluster, newId, job.owner) == cluster[target := stream])
  }

  lemma WholeCompletes(job: Job, d: Driver, cluster: Tree, newId: Id, target: Path, block: Block, fails: nat -> bool)
    requires Inv(job, d) && Finished(job, d) && newId !in d.t
    ensures Arrives(job, d.t, cluster, newId, target, block, fails)
  {
    var expected := Some(job.hash(Stream(job.seeds, job.sizes)));
    PartsReady(job, d, newId, target, expected);
    ConcatPromise(d.t, job.owner, job.locs, newId, None, target, expected);
    var whole := AfterConcat(d.t, job.owner, job.locs, newId, None, target, expected);
    CompletePromise(job.hash, block, fails, whole, cluster, newId, job.owner);
  }

  /** A schedule never sends more than the chunks of all parts, it is finished exactly when it has
      sent them all, and until then some worker can go on. */
  lemma ScheduleEnds(job: Job, ds: seq<Driver>, moves: seq<Move>)
    requires IsRun(job, ds, moves) && Created(job, ds[0])
    ensures Inv(job, ds[|moves|])
    ensures WorkerMoves(moves) <= ToSend(job.sizes, ds[0].offs, job.chunk)
    ensures WorkerMoves(moves) == ToSend(job.sizes, ds[0].offs, job.chunk) <==> Finished(job, ds[|moves|])
    ensures !Finished(job, ds[|moves|]) ==> exists i :: Allowed(job, ds[|moves|], Worker(i))
  {
    var d := ds[|moves|];
    EveryInterleaving(job, ds, moves, |moves|);
    assert moves[..|moves|] == moves;
    NothingToSend(job.sizes, d.offs, job.chunk);
    if !Finished(job, d) {
      var i :| 0 <= i < |job.sizes| && d.offs[i] != job.sizes[i];
      assert Holds(job, d.t, i, d.offs[i]);
      assert Allowed(job, d, Worker(i));
    }
  }

  /** The driver splits the total, creates the parts, and starts its workers at offset zero. */
  predicate Starts(job: Job, total: int, t: Table, d: Driver)
    requires |job.locs| == |job.sizes| > 0
  {
    && PartSizes(total, |job.locs|) == job.sizes
    && CreateAll(t, job.owner, job.locs, PartSizes(total, |job.locs|)) == Some(d.t)
    && d.offs == seq(|job.sizes|, _ => 0)
  }

  /** From the total to the target: the driver gets under way exactly when the total has a byte for
      each part; then every schedule of its workers, whatever happens to other uploads, can go on
      until exactly the chunks of all parts are sent and not longer; and then the merged upload passes
      its digest check and the target holds the byte stream that was hashed, `total` bytes of it. */
  lemma UploadArrives(job: Job, total: int, t: Table, ds: seq<Driver>, moves: seq<Move>, cluster: Tree, newId: Id,
                      target: Path, block: Block, fails: nat -> bool)
    requires IsRun(job, ds, moves) && Valid(t) && newId !in ds[|moves|].t
    requires Starts(job, total, t, ds[0])
    ensures total >= |job.locs| && |Stream(job.seeds, job.sizes)| == total
    ensures WorkerMoves(moves) <= ToSend(job.sizes, ds[0].offs, job.chunk)
    ensures WorkerMoves(moves) == ToSend(job.sizes, ds[0].offs, job.chunk) <==> Finished(job, ds[|moves|])
    ensures !Finished(job, ds[|moves|]) ==> exists i :: Allowed(job, ds[|moves|], Worker(i))
    ensures Finished(job, ds[|moves|]) ==> Arrives(job, ds[|moves|].t, cluster, newId, target, block, fails)
  {
    PartsAdmitted(t, job.owner, job.locs, total);
    DriverStarts(job, t);
    ScheduleEnds(job, ds, moves);
    StreamLength(job.seeds, job.sizes);
    SizesCover(total, |job.locs|);
    if Finished(job, ds[|moves|]) {
      WholeCompletes(job, ds[|moves|], cluster, newId, target, block, fails);
    }
  }

  lemma {:induction false} StreamLength(seeds: seq<Bytes>, sizes: seq<nat>)
    requires Seeded(seeds, sizes)
    ensures |Stream(seeds, sizes)| == Sum(sizes)
    decreases |sizes|
  {
    if sizes != [] {
      StreamLength(seeds[1..], sizes[1..]);
      var parts := PartStreams(seeds, sizes);
      assert parts[1..] == PartStreams(seeds[1..], sizes[1..]);
    }
  }
}
