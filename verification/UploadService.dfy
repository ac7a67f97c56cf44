/** `FileUploadService`: offset-based upload sessions, their concatenation and completion. */
module UploadService {
  import opened Text
  import opened Relay

  type Id = string

  datatype State = Initialized | Uploading | Written | Failed | Aborted

  /** `file` is the staging file of the session; it is purged when the session ends. */
  datatype Session = Session(owner: string, total: int, partial: bool, target: Path, expected: Option<Digest>,
                             state: State, received: int, file: Bytes)

  type Table = map<Id, Session>

  /** The error codes the service answers with. */
  datatype Error =
    | NotFound
    | Invalid
    | BadState
    | OffsetMismatch
    | ConcatInvalid
    | ConcatIncomplete
    | Incomplete
    | Sha256Mismatch
    | WriteFailed

  /** Size of a block written to the cluster; the service refuses any other at its construction. */
  type Block = n: nat | n > 0 witness 1

  datatype Result<T> = Ok(value: T) | Err(error: Error)

  predicate Alive(s: Session) {
    s.state == Initialized || s.state == Uploading
  }

  /** The received count of a live session is the length of its staging file. */
  predicate SessionValid(s: Session) {
    s.total > 0 && (Alive(s) ==> s.received == |s.file|)
  }

  predicate Valid(t: Table) {
    forall id :: id in t ==> SessionValid(t[id])
  }

  function Require(t: Table, id: Id, owner: string): Option<Session> {
    if id in t && t[id].owner == owner then Some(t[id]) else None
  }

  /* ---- partial uploads ---- */

  function CreateError(total: int): Option<Error> {
    if total <= 0 then Some(Invalid) else None
  }

  function AfterCreatePartial(t: Table, newId: Id, owner: string, total: int): Table {
    if CreateError(total) == None then t[newId := Session(owner, total, true, "", None, Initialized, 0, [])] else t
  }

  /* ---- byte intake ---- */

  /** Cutting a file to length, as the file system does: a shorter one grows by zeros. */
  function Truncate(file: Bytes, n: nat): Bytes {
    if n <= |file| then file[..n] else file + seq(n - |file|, _ => 0)
  }

  function AppendError(t: Table, id: Id, owner: string, offset: int): Option<Error> {
    match Require(t, id, owner)
    case None => Some(NotFound)
    case Some(s) =>
      if !Alive(s) then Some(BadState)
      else if offset < 0 then Some(Invalid)
      else if offset > s.received then Some(OffsetMismatch)
      else None
  }

  function Appended(s: Session, offset: nat, data: Bytes): Session {
    s.(file := Truncate(s.file, offset) + data, received := offset + |data|, state := Uploading)
  }

  function AfterAppend(t: Table, id: Id, owner: string, offset: int, data: Bytes): Table {
    if AppendError(t, id, owner, offset) == None then t[id := Appended(t[id], offset, data)] else t
  }

  /* ---- concatenation ---- */

  /** The first listed part that cannot be merged decides the error. */
  function PartsError(parts: seq<Session>): Option<Error> {
    if parts == [] then None
    else if !parts[0].partial then Some(ConcatInvalid)
    else if !Alive(parts[0]) then Some(ConcatInvalid)
    else if parts[0].received != parts[0].total then Some(ConcatIncomplete)
    else PartsError(parts[1..])
  }

  function Declared(parts: seq<Session>): int {
    if parts == [] then 0 else parts[0].total + Declared(parts[1..])
  }

  function Joined(parts: seq<Session>): Bytes {
    if parts == [] then [] else parts[0].file + Joined(parts[1..])
  }

  predicate AllFound(t: Table, owner: string, ids: seq<Id>) {
    forall i :: 0 <= i < |ids| ==> Require(t, ids[i], owner).Some?
  }

  function PartsOf(t: Table, owner: string, ids: seq<Id>): (parts: seq<Session>)
    requires AllFound(t, owner, ids)
  {
    seq(|ids|, i requires 0 <= i < |ids| && AllFound(t, owner, ids) => Require(t, ids[i], owner).value)
  }

  function ConcatError(t: Table, owner: string, ids: seq<Id>, total: Option<int>): Option<Error> {
    if ids == [] then Some(Invalid)
    else if !AllFound(t, owner, ids) then Some(NotFound)
    else
      var parts := PartsOf(t, owner, ids);
      var size := if total == None then Declared(parts) else total.value;
      if PartsError(parts) != None then PartsError(parts)
      else if size <= 0 then Some(Invalid)
      else if Declared(parts) != size then Some(ConcatInvalid)
      else None
  }

  function Whole(owner: string, parts: seq<Session>, target: Path, expected: Option<Digest>): Session {
    Session(owner, Declared(parts), false, target, expected, Uploading, Declared(parts), Joined(parts))
  }

  function AfterConcat(t: Table, owner: string, ids: seq<Id>, newId: Id, total: Option<int>, target: Path,
                       expected: Option<Digest>): Table {
    if ConcatError(t, owner, ids, total) == None then
      (t - (set id | id in ids))[newId := Whole(owner, PartsOf(t, owner, ids), target, expected)]
    else t
  }

  /* ---- completion ---- */

  /** Bytes that reach the cluster from `offset` on; `fails` says at which offsets a write raises. */
  function Reaching(file: Bytes, block: Block, fails: nat -> bool, offset: nat): (n: nat)
    requires offset <= |file|
    ensures offset <= n <= |file| && (n < |file| ==> fails(n))
    decreases |file| - offset
  {
    if offset == |file| || fails(offset) then offset
    else Reaching(file, block, fails, if offset + block < |file| then offset + block else |file|)
  }

  /** The target once that many bytes are there: the first block cuts what was there before. */
  function AfterWrites(cluster: Tree, target: Path, file: Bytes, n: nat): Tree
    requires n <= |file|
  {
    if n == 0 then cluster else cluster[target := file[..n]]
  }

  function CompleteError(hash: Bytes -> Digest, block: Block, fails: nat -> bool, t: Table, id: Id, owner: string): Option<Error> {
    match Require(t, id, owner)
    case None => Some(NotFound)
    case Some(s) =>
      if s.state == Written then None
      else if s.state == Failed || s.state == Aborted then Some(BadState)
      else if s.partial then Some(BadState)
      else if s.received != s.total then Some(Incomplete)
      else if s.expected.Some? && s.expected != Some(hash(s.file)) then Some(Sha256Mismatch)
      else if Reaching(s.file, block, fails, 0) < |s.file| then Some(WriteFailed)
      else None
  }

  function AfterComplete(hash: Bytes -> Digest, block: Block, fails: nat -> bool, t: Table, id: Id, owner: string): Table {
    match CompleteError(hash, block, fails, t, id, owner)
    case None => if t[id].state == Written then t else t[id := t[id].(state := Written, file := [])]
    case Some(Sha256Mismatch) => t[id := t[id].(state := Failed, file := [])]
    case Some(WriteFailed) => t[id := t[id].(state := Failed, file := [])]
    case Some(_) => t
  }

  function ClusterAfterComplete(hash: Bytes -> Digest, block: Block, fails: nat -> bool, t: Table, cluster: Tree,
                                id: Id, owner: string): Tree {
    var e := CompleteError(hash, block, fails, t, id, owner);
    if e == Some(WriteFailed) || (e == None && t[id].state != Written)
    then AfterWrites(cluster, t[id].target, t[id].file, Reaching(t[id].file, block, fails, 0)) else cluster
  }

  /* ---- termination ---- */

  /** An upload that has not ended is aborted; its staging file goes in any case. */
  function AfterAbort(t: Table, id: Id, owner: string): Table {
    match Require(t, id, owner)
    case None => t
    case Some(s) => t[id := s.(state := if Alive(s) then Aborted else s.state, file := [])]
  }

  /* ---- the service object ---- */

  class FileUploadService {
    const hash: Bytes -> Digest
    const blockSize: Block
    var sessions: Table
    var cluster: Tree

    constructor (hash: Bytes -> Digest, blockSize: Block)
      ensures this.hash == hash && this.blockSize == blockSize && sessions == map[] && cluster == map[]
    {
      this.hash := hash;
      this.blockSize := blockSize;
      sessions := map[];
      cluster := map[];
    }

    method CreatePartialSession(newId: Id, owner: string, total: int) returns (r: Result<Id>)
      modifies this`sessions
      ensures sessions == AfterCreatePartial(old(sessions), newId, owner, total)
      ensures r == if total <= 0 then Err(Invalid) else Ok(newId)
    {
      if total <= 0 {
        return Err(Invalid);
      }
      sessions := sessions[newId := Session(owner, total, true, "", None, Initialized, 0, [])];
      return Ok(newId);
    }

    method AppendBytes(id: Id, owner: string, offset: int, data: Bytes) returns (r: Result<int>)
      modifies this`sessions
      ensures sessions == AfterAppend(old(sessions), id, owner, offset, data)
      ensures match AppendError(old(sessions), id, owner, offset)
              case Some(e) => r == Err(e)
              case None => r == Ok(offset + |data|) && id in sessions && sessions[id].received == offset + |data|
    {
      if id !in sessions || sessions[id].owner != owner {
        return Err(NotFound);
      }
      var session := sessions[id];
      if session.state == Written || session.state == Failed || session.state == Aborted {
        return Err(BadState);
      }
      if offset < 0 {
        return Err(Invalid);
      }
      if offset > session.received {
        return Err(OffsetMismatch);
      }
      session := session.(file := Truncate(session.file, offset) + data);
      session := session.(received := offset + |data|);
      if session.state == Initialized {
        session := session.(state := Uploading);
      }
      sessions := sessions[id := session];
      return Ok(session.received);
    }

    method Abort(id: Id, owner: string) returns (r: Result<Session>)
      modifies this`sessions
      ensures sessions == AfterAbort(old(sessions), id, owner)
      ensures r.Err? <==> Require(old(sessions), id, owner) == None
      ensures r.Err? ==> r == Err(NotFound)
      ensures r.Ok? ==> id in sessions && r.value == sessions[id]
    {
      if id !in sessions || sessions[id].owner != owner {
        return Err(NotFound);
      }
      var session := sessions[id];
      if session.state != Written && session.state != Failed && session.state != Aborted {
        session := session.(state := Aborted);
      }
      sessions := sessions[id := session.(file := [])];
      return Ok(sessions[id]);
    }

    method CheckParts(parts: seq<Session>) returns (e: Option<Error>)
      ensures e == PartsError(parts)
    {
      for i := 0 to |parts|
        invariant PartsError(parts) == PartsError(parts[i..])
      {
        if !parts[i].partial || !Alive(parts[i]) {
          return Some(ConcatInvalid);
        }
        if parts[i].received != parts[i].total {
          return Some(ConcatIncomplete);
        }
      }
      return None;
    }

    method Merge(parts: seq<Session>) returns (declared: int, out: Bytes)
      ensures declared == Declared(parts) && out == Joined(parts)
    {
      declared, out := 0, [];
      for i := 0 to |parts|
        invariant declared + Declared(parts[i..]) == Declared(parts)
        invariant out + Joined(parts[i..]) == Joined(parts)
      {
        assert out + (parts[i].file + Joined(parts[i + 1..])) == (out + parts[i].file) + Joined(parts[i + 1..]);
        declared, out := declared + parts[i].total, out + parts[i].file;
      }
    }

    method Concatenate(owner: string, ids: seq<Id>, newId: Id, total: Option<int>, target: Path,
                       expected: Option<Digest>) returns (r: Result<Id>)
      modifies this`sessions
      ensures sessions == AfterConcat(old(sessions), owner, ids, newId, total, target, expected)
      ensures match ConcatError(old(sessions), owner, ids, total)
              case Some(e) => r == Err(e)
              case None => r == Ok(newId)
    {
      if ids == [] {
        return Err(Invalid);
      }
      var parts: seq<Session> := [];
      for i := 0 to |ids|
        invariant |parts| == i && sessions == old(sessions)
        invariant forall j :: 0 <= j < i ==> Require(sessions, ids[j], owner) == Some(parts[j])
      {
        if Require(sessions, ids[i], owner) == None {
          return Err(NotFound);
        }
        parts := parts + [sessions[ids[i]]];
      }
      assert parts == PartsOf(sessions, owner, ids);
      var fault := CheckParts(parts);
      if fault.Some? {
        return Err(fault.value);
      }
      var declared, out := Merge(parts);
      var size := if total == None then declared else total.value;
      if size <= 0 {
        return Err(Invalid);
      }
      if declared != size {
        return Err(ConcatInvalid);
      }
      var session := Session(owner, size, false, target, expected, Uploading, size, out);
      sessions := (sessions - (set id | id in ids))[newId := session];
      return Ok(newId);
    }

    /** Block by block; `ok` is false when a write raised. */
    method WriteToCluster(target: Path, file: Bytes, fails: nat -> bool) returns (ok: bool)
      modifies this`cluster
      ensures cluster == AfterWrites(old(cluster), target, file, Reaching(file, blockSize, fails, 0))
      ensures ok <==> Reaching(file, blockSize, fails, 0) == |file|
    {
      var offset := 0;
      while offset < |file|
        invariant offset <= |file|
        invariant cluster == AfterWrites(old(cluster), target, file, offset)
        invariant Reaching(file, blockSize, fails, 0) == Reaching(file, blockSize, fails, offset)
      {
        if fails(offset) {
          return false;
        }
        var next := if offset + blockSize < |file| then offset + blockSize else |file|;
        assert file[..offset] + file[offset..next] == file[..next];
        cluster := AfterChunk(cluster, target, file[offset..next], offset);
        assert offset > 0 ==> old(cluster)[target := file[..offset]][target := file[..next]] == old(cluster)[target := file[..next]];
        offset := next;
      }
      return true;
    }

    method Complete(id: Id, owner: string, fails: nat -> bool) returns (r: Result<Session>)
      modifies this
      ensures sessions == AfterComplete(hash, blockSize, fails, old(sessions), id, owner)
      ensures cluster == ClusterAfterComplete(hash, blockSize, fails, old(sessions), old(cluster), id, owner)
      ensures match CompleteError(hash, blockSize, fails, old(sessions), id, owner)
              case Some(e) => r == Err(e)
              case None => r.Ok? && id in sessions && r.value == sessions[id]
    {
      if id !in sessions || sessions[id].owner != owner {
        return Err(NotFound);
      }
      var session := sessions[id];
      if session.state == Written {
        return Ok(session);
      }
      if session.state == Failed || session.state == Aborted || session.partial {
        return Err(BadState);
      }
      if session.received != session.total {
        return Err(Incomplete);
      }
      var digest := hash(session.file);
      if session.expected.Some? && session.expected.value != digest {
        sessions := sessions[id := session.(state := Failed, file := [])];
        return Err(Sha256Mismatch);
      }
      var ok := WriteToCluster(session.target, session.file, fails);
      if !ok {
        sessions := sessions[id := session.(state := Failed, file := [])];
        return Err(WriteFailed);
      }
      sessions := sessions[id := session.(state := Written, file := [])];
      return Ok(sessions[id]);
    }
  }

  /* ---- what the service answers ---- */

  predicate Ended(s: Session) {
    s.state == Written || s.state == Failed || s.state == Aborted
  }

  /** To a PATCH: a stranger finds nothing, an ended upload takes nothing, an offset ahead of the bytes
      received is a mismatch; whatever is refused changes nothing. */
  lemma AppendAnswers(t: Table, id: Id, owner: string, offset: int, data: Bytes)
    ensures AppendError(t, id, owner, offset) == Some(NotFound) <==> id !in t || t[id].owner != owner
    ensures id in t && t[id].owner == owner ==>
      AppendError(t, id, owner, offset) ==
        if Ended(t[id]) then Some(BadState)
        else if offset < 0 then Some(Invalid)
        else if t[id].received < offset then Some(OffsetMismatch)
        else None
    ensures AppendError(t, id, owner, offset) != None ==> AfterAppend(t, id, owner, offset, data) == t
  {
  }

  /** To a completion: a stranger finds nothing, an upload that failed, was aborted or is a part is
      refused, an incomplete one too; none of these changes anything. */
  lemma CompleteAnswers(hash: Bytes -> Digest, block: Block, fails: nat -> bool, t: Table, cluster: Tree, id: Id, owner: string)
    ensures CompleteError(hash, block, fails, t, id, owner) == Some(NotFound) <==> id !in t || t[id].owner != owner
    ensures id in t && t[id].owner == owner ==>
      && (t[id].state == Written ==> CompleteError(hash, block, fails, t, id, owner) == None)
      && (t[id].state == Failed || t[id].state == Aborted || (t[id].partial && !Ended(t[id])) ==>
            CompleteError(hash, block, fails, t, id, owner) == Some(BadState))
      && (!Ended(t[id]) && !t[id].partial && t[id].received != t[id].total ==>
            CompleteError(hash, block, fails, t, id, owner) == Some(Incomplete))
    ensures id !in t || t[id].owner != owner || Ended(t[id]) || t[id].partial || t[id].received != t[id].total ==>
      && AfterComplete(hash, block, fails, t, id, owner) == t
      && ClusterAfterComplete(hash, block, fails, t, cluster, id, owner) == cluster
  {
  }

  predicate Mergeable(s: Session) {
    s.partial && !Ended(s) && s.received == s.total
  }

  function Refusal(s: Session): Error {
    if !s.partial || Ended(s) then ConcatInvalid else ConcatIncomplete
  }

  lemma {:induction false} PartsErrorAt(parts: seq<Session>, i: nat)
    requires i < |parts| && !Mergeable(parts[i])
    requires forall j :: 0 <= j < i ==> Mergeable(parts[j])
    ensures PartsError(parts) == Some(Refusal(parts[i]))
  {
    if i > 0 {
      assert Mergeable(parts[0]);
      PartsErrorAt(parts[1..], i - 1);
    }
  }

  /** The parts are all the caller's, and the i-th is the first that cannot be merged. */
  predicate FirstFault(t: Table, owner: string, ids: seq<Id>, i: nat) {
    && i < |ids| && (forall j :: 0 <= j < |ids| ==> ids[j] in t && t[ids[j]].owner == owner)
    && !Mergeable(t[ids[i]]) && forall j :: 0 <= j < i ==> Mergeable(t[ids[j]])
  }

  /** To a concatenation: anything listed that is not the caller's is not found, else the first listed
      part that cannot be merged decides; whatever is refused changes nothing. */
  lemma ConcatAnswers(t: Table, owner: string, ids: seq<Id>, newId: Id, total: Option<int>, target: Path,
                      expected: Option<Digest>, i: nat)
    requires i < |ids|
    ensures ids[i] !in t || t[ids[i]].owner != owner ==> ConcatError(t, owner, ids, total) == Some(NotFound)
    ensures FirstFault(t, owner, ids, i) ==> ConcatError(t, owner, ids, total) == Some(Refusal(t[ids[i]]))
    ensures ConcatError(t, owner, ids, total) != None ==> AfterConcat(t, owner, ids, newId, total, target, expected) == t
  {
    if FirstFault(t, owner, ids, i) {
      PartsErrorAt(PartsOf(t, owner, ids), i);
    }
  }

  /** An aborted upload is lost for its owner too: it takes no bytes, and cannot be merged or completed. */
  lemma AbortEnds(hash: Bytes -> Digest, block: Block, fails: nat -> bool, t: Table, id: Id, owner: string, offset: int, ids: seq<Id>)
    requires id in t && t[id].owner == owner && !Ended(t[id])
    ensures var r := AfterAbort(t, id, owner);
      && r - {id} == t - {id} && r[id].state == Aborted && r[id].file == []
      && AppendError(r, id, owner, offset) == Some(BadState)
      && CompleteError(hash, block, fails, r, id, owner) == Some(BadState)
      && (id in ids ==> ConcatError(r, owner, ids, None) != None)
  {
    var r := AfterAbort(t, id, owner);
    if id in ids && AllFound(r, owner, ids) {
      var i :| 0 <= i < |ids| && ids[i] == id;
      PartsErrorMeaning(PartsOf(r, owner, ids));
      assert !Alive(PartsOf(r, owner, ids)[i]);
    }
  }

  /* ---- isolation ---- */

  datatype Request =
    | Create(owner: string, newId: Id, size: int)
    | Append(owner: string, id: Id, offset: int, data: Bytes)
    | Concat(owner: string, ids: seq<Id>, newId: Id, total: Option<int>, target: Path, expected: Option<Digest>)
    | CompleteIt(owner: string, id: Id, fails: nat -> bool)
    | AbortIt(owner: string, id: Id)

  function Handled(hash: Bytes -> Digest, block: Block, t: Table, r: Request): Table {
    match r
    case Create(owner, newId, size) => AfterCreatePartial(t, newId, owner, size)
    case Append(owner, id, offset, data) => AfterAppend(t, id, owner, offset, data)
    case Concat(owner, ids, newId, total, target, expected) => AfterConcat(t, owner, ids, newId, total, target, expected)
    case CompleteIt(owner, id, fails) => AfterComplete(hash, block, fails, t, id, owner)
    case AbortIt(owner, id) => AfterAbort(t, id, owner)
  }

  /** New uploads get ids that are not in use. */
  predicate FreshId(t: Table, r: Request) {
    (r.Create? || r.Concat?) ==> r.newId !in t
  }

  function HandledAll(hash: Bytes -> Digest, block: Block, t: Table, rs: seq<Request>): Table
    decreases |rs|
  {
    if rs == [] then t else HandledAll(hash, block, Handled(hash, block, t, rs[0]), rs[1..])
  }

  predicate FreshIds(hash: Bytes -> Digest, block: Block, t: Table, rs: seq<Request>)
    decreases |rs|
  {
    rs != [] ==> FreshId(t, rs[0]) && FreshIds(hash, block, Handled(hash, block, t, rs[0]), rs[1..])
  }

  lemma StrangerHandled(hash: Bytes -> Digest, block: Block, t: Table, r: Request, id: Id)
    requires id in t && r.owner != t[id].owner && FreshId(t, r)
    ensures id in Handled(hash, block, t, r) && Handled(hash, block, t, r)[id] == t[id]
  {
    if r.Concat? && AllFound(t, r.owner, r.ids) {
      assert forall i :: 0 <= i < |r.ids| ==> t[r.ids[i]].owner == r.owner;
    }
  }

  /** Whatever requests others make, in whatever order, an upload stays as its owner left it. */
  lemma {:induction false} OthersCannotTouch(hash: Bytes -> Digest, block: Block, t: Table, rs: seq<Request>, id: Id)
    requires id in t && FreshIds(hash, block, t, rs)
    requires forall r :: r in rs ==> r.owner != t[id].owner
    ensures id in HandledAll(hash, block, t, rs) && HandledAll(hash, block, t, rs)[id] == t[id]
    decreases |rs|
  {
    if rs != [] {
      assert rs[0] in rs;
      StrangerHandled(hash, block, t, rs[0], id);
      assert forall r :: r in rs[1..] ==> r in rs;
      OthersCannotTouch(hash, block, Handled(hash, block, t, rs[0]), rs[1..], id);
    }
  }

  /* ---- what the service promises ---- */

  /** On a live session that holds a prefix of a payload: an offset is accepted exactly when it is
      not ahead of the bytes received, the count is then the new length, and the file stays a prefix
      exactly when the data sent is the payload's slice there. Nothing else changes. */
  lemma PatchPromise(t: Table, id: Id, owner: string, offset: int, data: Bytes, payload: Bytes)
    requires Valid(t) && id in t && t[id].owner == owner && Alive(t[id]) && t[id].file <= payload
    ensures AppendError(t, id, owner, offset) == None <==> 0 <= offset <= |t[id].file|
    ensures Valid(AfterAppend(t, id, owner, offset, data)) && AfterAppend(t, id, owner, offset, data) - {id} == t - {id}
    ensures 0 <= offset <= |t[id].file| ==>
      (AfterAppend(t, id, owner, offset, data)[id].file <= payload <==> IsSlice(payload, offset, data))
    ensures 0 <= offset <= |t[id].file| ==>
      var s := AfterAppend(t, id, owner, offset, data)[id];
      && s.state == Uploading && s.received == |s.file| == offset + |data|
      && s.owner == owner && s.total == t[id].total && s.target == t[id].target && s.expected == t[id].expected
  {
    if 0 <= offset <= |t[id].file| {
      var file := t[id].file[..offset] + data;
      assert AfterAppend(t, id, owner, offset, data)[id].file == file;
      assert file[offset..] == data;
      assert file <= payload ==> payload[offset..offset + |data|] == file[offset..];
      assert IsSlice(payload, offset, data) ==> file == payload[..offset + |data|];
    }
  }

  predicate IsSlice(payload: Bytes, offset: int, data: Bytes) {
    0 <= offset && offset + |data| <= |payload| && data == payload[offset..offset + |data|]
  }

  datatype Patch = Patch(offset: int, data: Bytes)

  /** A client's PATCH requests on one session, one after the other; a rejected one changes nothing. */
  function PatchAll(t: Table, id: Id, owner: string, patches: seq<Patch>): Table {
    if patches == [] then t
    else PatchAll(AfterAppend(t, id, owner, patches[0].offset, patches[0].data), id, owner, patches[1..])
  }

  predicate HoldsPrefix(t: Table, id: Id, owner: string, payload: Bytes) {
    && id in t && t[id].owner == owner && Alive(t[id])
    && 0 <= t[id].received <= |payload| && t[id].file == payload[..t[id].received]
  }

  /** Retried, overlapping, out-of-order or rejected requests never corrupt the file: as long as each
      sends the payload's own bytes for its offset, the file stays a prefix of the payload with the
      reported offset as its length, so that a full length means an intact file. */
  lemma {:induction false} RetriesKeepPrefix(t: Table, id: Id, owner: string, patches: seq<Patch>, payload: Bytes)
    requires Valid(t) && id in t && t[id].owner == owner && Alive(t[id]) && t[id].file <= payload
    requires forall p :: p in patches ==> IsSlice(payload, p.offset, p.data)
    ensures var r := PatchAll(t, id, owner, patches);
      && Valid(r) && r - {id} == t - {id} && HoldsPrefix(r, id, owner, payload)
      && (r[id].received == |payload| ==> r[id].file == payload)
  {
    if patches != [] {
      var p := patches[0];
      var t' := AfterAppend(t, id, owner, p.offset, p.data);
      PatchPromise(t, id, owner, p.offset, p.data, payload);
      RetriesKeepPrefix(t', id, owner, patches[1..], payload);
    }
  }

  /** Sending everything from offset `n` on completes the file. */
  predicate Finishes(t: Table, id: Id, owner: string, payload: Bytes, n: int) {
    && 0 <= n <= |payload|
    && var done := AfterAppend(t, id, owner, n, payload[n..]);
       id in done && done[id].file == payload && done[id].received == |payload|
  }

  /** Wherever the retries left off, sending the rest from the reported offset finishes the file. */
  lemma ResumeFinishes(t: Table, id: Id, owner: string, patches: seq<Patch>, payload: Bytes)
    requires Valid(t) && id in t && t[id].owner == owner && Alive(t[id]) && t[id].file <= payload
    requires forall p :: p in patches ==> IsSlice(payload, p.offset, p.data)
    ensures var r := PatchAll(t, id, owner, patches);
      HoldsPrefix(r, id, owner, payload) && Finishes(r, id, owner, payload, r[id].received)
  {
    RetriesKeepPrefix(t, id, owner, patches, payload);
    var n := PatchAll(t, id, owner, patches)[id].received;
    assert payload[..n] + payload[n..] == payload;
  }

  lemma {:induction false} PartsErrorMeaning(parts: seq<Session>)
    ensures PartsError(parts) == None <==>
      forall i :: 0 <= i < |parts| ==> parts[i].partial && Alive(parts[i]) && parts[i].received == parts[i].total
  {
    if parts != [] {
      PartsErrorMeaning(parts[1..]);
      assert forall i :: 1 <= i < |parts| ==> parts[i] == parts[1..][i - 1];
    }
  }

  lemma {:induction false} JoinedLength(parts: seq<Session>)
    requires PartsError(parts) == None && forall i :: 0 <= i < |parts| ==> SessionValid(parts[i])
    ensures |Joined(parts)| == Declared(parts) >= |parts|
  {
    if parts != [] {
      JoinedLength(parts[1..]);
    }
  }

  function FilesOf(t: Table, ids: seq<Id>): seq<Bytes>
    requires forall i :: 0 <= i < |ids| ==> ids[i] in t
  {
    seq(|ids|, i requires 0 <= i < |ids| && ids[i] in t => t[ids[i]].file)
  }

  lemma {:induction false} JoinedIsFlatten(parts: seq<Session>, files: seq<Bytes>)
    requires |parts| == |files| && forall i :: 0 <= i < |parts| ==> parts[i].file == files[i]
    ensures Joined(parts) == Flatten(files)
  {
    if parts != [] {
      JoinedIsFlatten(parts[1..], files[1..]);
    }
  }

  /** Concatenation succeeds exactly when every listed upload is the owner's, partial, live and
      complete, and a declared length fits; the merged session then stands in for its parts, and
      its bytes are theirs in the listed order. */
  lemma ConcatPromise(t: Table, owner: string, ids: seq<Id>, newId: Id, total: Option<int>, target: Path, expected: Option<Digest>)
    requires Valid(t) && newId !in t
    ensures ConcatError(t, owner, ids, total) == None <==>
      && ids != [] && (forall i :: 0 <= i < |ids| ==> ids[i] in t && t[ids[i]].owner == owner)
      && (forall i :: 0 <= i < |ids| ==> t[ids[i]].partial && Alive(t[ids[i]]) && t[ids[i]].received == t[ids[i]].total)
      && (total == None || total == Some(|Flatten(FilesOf(t, ids))|))
    ensures var r := AfterConcat(t, owner, ids, newId, total, target, expected);
      Valid(r) && (ConcatError(t, owner, ids, total) == None ==>
        && r.Keys == t.Keys - (set id | id in ids) + {newId}
        && (forall id :: id in t && id !in ids ==> r[id] == t[id])
        && r[newId].file == Flatten(FilesOf(t, ids))
        && |r[newId].file| == r[newId].received == r[newId].total && Alive(r[newId]) && !r[newId].partial
        && r[newId].owner == owner && r[newId].target == target && r[newId].expected == expected)
  {
    if AllFound(t, owner, ids) {
      var parts := PartsOf(t, owner, ids);
      PartsErrorMeaning(parts);
      assert forall i :: 0 <= i < |ids| ==> parts[i] == t[ids[i]];
      JoinedIsFlatten(parts, FilesOf(t, ids));
      if PartsError(parts) == None {
        JoinedLength(parts);
      }
    }
  }

  /** With nothing wrong about the parts, only a declared length can be: one that is not positive is
      invalid, any other that is not theirs does not fit. */
  lemma ConcatSizes(t: Table, owner: string, ids: seq<Id>, declared: int)
    requires Valid(t) && ids != [] && forall i :: 0 <= i < |ids| ==> ids[i] in t && t[ids[i]].owner == owner && Mergeable(t[ids[i]])
    ensures ConcatError(t, owner, [], Some(declared)) == Some(Invalid) && ConcatError(t, owner, ids, None) == None
    ensures ConcatError(t, owner, ids, Some(declared)) ==
      if declared <= 0 then Some(Invalid) else if declared != |Flatten(FilesOf(t, ids))| then Some(ConcatInvalid) else None
  {
    var parts := PartsOf(t, owner, ids);
    assert forall i :: 0 <= i < |ids| ==> parts[i] == t[ids[i]];
    PartsErrorMeaning(parts);
    JoinedIsFlatten(parts, FilesOf(t, ids));
    JoinedLength(parts);
  }

  /** The bytes of the session are those the client announced, and all of them. */
  predicate Deliverable(hash: Bytes -> Digest, s: Session) {
    |s.file| == s.total && (s.expected == None || s.expected == Some(hash(s.file)))
  }

  /** Completion touches the cluster only when all bytes arrived and match the digest the client
      announced, if any. Then the target holds the whole file and the session is written, unless a
      block fails: then the session fails, and the target holds the blocks before it. */
  lemma CompletePromise(hash: Bytes -> Digest, block: Block, fails: nat -> bool, t: Table, cluster: Tree, id: Id, owner: string)
    requires Valid(t) && id in t && t[id].owner == owner && Alive(t[id]) && !t[id].partial
    ensures var r, c := AfterComplete(hash, block, fails, t, id, owner), ClusterAfterComplete(hash, block, fails, t, cluster, id, owner);
      var s, n := t[id], Reaching(t[id].file, block, fails, 0);
      && Valid(r) && r - {id} == t - {id}
      && (|s.file| == s.total && !Deliverable(hash, s) ==>
            CompleteError(hash, block, fails, t, id, owner) == Some(Sha256Mismatch))
      && (Deliverable(hash, s) ==>
            CompleteError(hash, block, fails, t, id, owner) == if n < |s.file| then Some(WriteFailed) else None)
      && (!Deliverable(hash, s) ==> c == cluster && r[id].state == if |s.file| == s.total then Failed else s.state)
      && (Deliverable(hash, s) && n == |s.file| ==>
            c == cluster[s.target := s.file] && r[id].state == Written && CompleteError(hash, block, fails, r, id, owner) == None)
      && (Deliverable(hash, s) && n < |s.file| ==>
            fails(n) && c == AfterWrites(cluster, s.target, s.file, n) && r[id].state == Failed)
  {
    var s := t[id];
    assert s.file[..|s.file|] == s.file;
  }
}
