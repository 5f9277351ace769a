/** Publication of one canonical JSON document by same-directory replacement
    (CanonicalJsonFile._publish_bytes and _finalize_publication_resources in
    src/dr_store/document_file/canonical_json.py).

    Any number of publishers and readers share one directory. A step is one system call, which may fail, write
    short, or, for a rename, report failure with or without having taken effect; a process may stop at any
    step. Names point at inodes, so a reader keeps the inode it opened. Every publisher has its own temporary
    name. */
module DocumentPublication {
  import opened Wrappers

  type Bytes = seq<bv8>
  type Inode = nat
  type PublisherId = nat
  type ReaderId = nat

  datatype Stage = CreateTemp | WriteTemp | ReplaceTarget
  datatype Replacement = NotReplaced | Unknown | Replaced

  datatype Outcome = Published | PublishError(stage: Stage, replacement: Replacement)

  datatype Pc =
    | OpeningDirectory
    | OpeningTemp
    | Writing
    | Replacing
    | ClosingLeftTemp
    | Unlinking
    | ClosingDirectory
    | Done(outcome: Outcome)
    | Stopped

  /** One publisher's variables. The last fields only count calls and record effects. */
  datatype Publisher = Publisher(
    encoded: Bytes, pc: Pc, stage: Stage, replacement: Replacement, directoryOpen: bool, tempOpen: bool,
    ownsTemp: bool, failed: bool, inode: Option<Inode>, written: nat,
    directoryOpens: nat, directoryCloses: nat, tempOpens: nat, tempCloses: nat,
    changedTarget: bool, unlinkFailed: bool, directoryCloseFailed: bool)
  {
    function Fail(): Publisher {
      this.(failed := true, pc := ClosingLeftTemp)
    }
  }

  datatype Reader = Reader(inode: Inode, got: Bytes, sawEnd: bool)

  /** temps[p] is what p's temporary name points at. */
  datatype State = State(
    files: map<Inode, Bytes>, next: Inode, target: Option<Inode>, temps: map<PublisherId, Inode>,
    publishers: map<PublisherId, Publisher>, readers: map<ReaderId, Reader>)

  datatype RenameResult = Renamed | NotRenamed | RenamedButFailed

  datatype Action =
    | Start(p: PublisherId, encoded: Bytes)
    | OpenDirectory(p: PublisherId, ok: bool)
    | OpenTemp(p: PublisherId, ok: bool)
    | Write(p: PublisherId, count: nat)
    | WriteFails(p: PublisherId)
    | CloseTemp(p: PublisherId, ok: bool)
    | Rename(p: PublisherId, result: RenameResult)
    | CloseLeftTemp(p: PublisherId, ok: bool)
    | Unlink(p: PublisherId, ok: bool)
    | CloseDirectory(p: PublisherId, ok: bool)
    | Stop(p: PublisherId)
    | OpenTarget(r: ReaderId)
    | ReadSome(r: ReaderId, count: nat)
    | ReadEnd(r: ReaderId)

  /** A directory that holds an earlier document, or none. */
  function Initial(earlier: Option<Bytes>): State {
    match earlier
    case None => State(map[], 1, None, map[], map[], map[])
    case Some(bytes) => State(map[0 := bytes], 1, Some(0), map[], map[], map[])
  }

  function NewPublisher(encoded: Bytes): Publisher {
    Publisher(encoded, OpeningDirectory, CreateTemp, NotReplaced, false, false, false, false, None, 0,
              0, 0, 0, 0, false, false, false)
  }

  /** Replace one publisher's variables. */
  function With(s: State, p: PublisherId, q: Publisher): State {
    s.(publishers := s.publishers[p := q])
  }

  function OpenDirectoryStep(s: State, p: PublisherId, q: Publisher, ok: bool): Option<State> {
    if !q.pc.OpeningDirectory? then None
    else if !ok then Some(With(s, p, q.Fail()))
    else Some(With(s, p, q.(directoryOpen := true, directoryOpens := 1, pc := OpeningTemp)))
  }

  /** O_CREAT | O_EXCL: a new empty file under the temporary name. */
  function OpenTempStep(s: State, p: PublisherId, q: Publisher, ok: bool): Option<State> {
    if !q.pc.OpeningTemp? then None
    else if !ok || p in s.temps then Some(With(s, p, q.Fail()))
    else
      var created := q.(tempOpen := true, tempOpens := 1, ownsTemp := true, inode := Some(s.next), stage := WriteTemp,
                        pc := Writing);
      Some(With(s.(files := s.files[s.next := []], next := s.next + 1, temps := s.temps[p := s.next]), p, created))
  }

  /** One write call of the write loop, possibly short. */
  function WriteStep(s: State, p: PublisherId, q: Publisher, count: nat): Option<State> {
    if !q.pc.Writing? || q.inode.None? || q.inode.value !in s.files then None
    else if count == 0 || q.written + count > |q.encoded| then None
    else
      var content := s.files[q.inode.value] + q.encoded[q.written..q.written + count];
      Some(With(s.(files := s.files[q.inode.value := content]), p, q.(written := q.written + count)))
  }

  /** A write call that fails or makes no progress. */
  function WriteFailsStep(s: State, p: PublisherId, q: Publisher): Option<State> {
    if !q.pc.Writing? || q.written >= |q.encoded| then None else Some(With(s, p, q.Fail()))
  }

  /** The descriptor variable is cleared before the call, so a failed close is not repeated. */
  function CloseTempStep(s: State, p: PublisherId, q: Publisher, ok: bool): Option<State> {
    if !q.pc.Writing? || q.written < |q.encoded| then None
    else
      var closed := q.(tempOpen := false, tempCloses := q.tempCloses + 1);
      if !ok then Some(With(s, p, closed.Fail()))
      else Some(With(s, p, closed.(stage := ReplaceTarget, replacement := Unknown, pc := Replacing)))
  }

  function RenameStep(s: State, p: PublisherId, q: Publisher, result: RenameResult): Option<State> {
    if !q.pc.Replacing? || p !in s.temps then None
    else
      var moved := s.(target := Some(s.temps[p]), temps := s.temps - {p});
      match result
      case NotRenamed => Some(With(s, p, q.Fail()))
      case RenamedButFailed => Some(With(moved, p, q.(changedTarget := true).Fail()))
      case Renamed =>
        var renamed := q.(changedTarget := true, replacement := Replaced, ownsTemp := false, pc := ClosingLeftTemp);
        Some(With(moved, p, renamed))
  }

  function CloseLeftTempStep(s: State, p: PublisherId, q: Publisher, ok: bool): Option<State> {
    if !q.pc.ClosingLeftTemp? then None
    else if !q.tempOpen then Some(With(s, p, q.(pc := Unlinking)))
    else
      var closed := q.(tempOpen := false, tempCloses := q.tempCloses + 1);
      Some(With(s, p, closed.(failed := q.failed || !ok, pc := Unlinking)))
  }

  /** Only a failed publisher that still owns its temporary name unlinks it; the call's own failure is suppressed. */
  function UnlinkStep(s: State, p: PublisherId, q: Publisher, ok: bool): Option<State> {
    if !q.pc.Unlinking? then None
    else if !q.failed || !q.ownsTemp || !q.directoryOpen then Some(With(s, p, q.(pc := ClosingDirectory)))
    else
      Some(With(s.(temps := if ok then s.temps - {p} else s.temps), p,
                q.(unlinkFailed := !ok, pc := ClosingDirectory)))
  }

  function CloseDirectoryStep(s: State, p: PublisherId, q: Publisher, ok: bool): Option<State> {
    if !q.pc.ClosingDirectory? then None
    else
      var closed := if !q.directoryOpen then q
                    else q.(directoryOpen := false, directoryCloses := q.directoryCloses + 1, failed := q.failed || !ok,
                            directoryCloseFailed := !ok);
      var outcome := if closed.failed then PublishError(q.stage, q.replacement) else Published;
      Some(With(s, p, closed.(pc := Done(outcome))))
  }

  function StopStep(s: State, p: PublisherId, q: Publisher): Option<State> {
    if q.pc.Done? then None else Some(With(s, p, q.(pc := Stopped)))
  }

  function PublisherStep(s: State, q: Publisher, action: Action): Option<State>
    requires !action.OpenTarget? && !action.ReadSome? && !action.ReadEnd?
  {
    match action
    case OpenDirectory(p, ok) => OpenDirectoryStep(s, p, q, ok)
    case OpenTemp(p, ok) => OpenTempStep(s, p, q, ok)
    case Write(p, count) => WriteStep(s, p, q, count)
    case WriteFails(p) => WriteFailsStep(s, p, q)
    case CloseTemp(p, ok) => CloseTempStep(s, p, q, ok)
    case Rename(p, result) => RenameStep(s, p, q, result)
    case CloseLeftTemp(p, ok) => CloseLeftTempStep(s, p, q, ok)
    case Unlink(p, ok) => UnlinkStep(s, p, q, ok)
    case CloseDirectory(p, ok) => CloseDirectoryStep(s, p, q, ok)
    case Stop(p) => StopStep(s, p, q)
    case Start(_, _) => None
  }

  function ReaderStep(s: State, action: Action): Option<State> {
    match action
    case OpenTarget(r) =>
      if r in s.readers || s.target.None? then None
      else Some(s.(readers := s.readers[r := Reader(s.target.value, [], false)]))
    case ReadSome(r, count) =>
      if r !in s.readers || s.readers[r].inode !in s.files then None
      else
        var reader := s.readers[r];
        var content := s.files[reader.inode];
        if count == 0 || |reader.got| + count > |content| then None
        else
          var got := reader.got + content[|reader.got|..|reader.got| + count];
          Some(s.(readers := s.readers[r := reader.(got := got)]))
    case ReadEnd(r) =>
      if r !in s.readers || s.readers[r].inode !in s.files then None
      else if |s.readers[r].got| < |s.files[s.readers[r].inode]| then None
      else Some(s.(readers := s.readers[r := s.readers[r].(sawEnd := true)]))
    case _ => None
  }

  function Step(s: State, action: Action): Option<State> {
    if action.OpenTarget? || action.ReadSome? || action.ReadEnd? then ReaderStep(s, action)
    else if action.Start? then
      if action.p in s.publishers then None
      else Some(s.(publishers := s.publishers[action.p := NewPublisher(action.encoded)]))
    else if action.p in s.publishers then PublisherStep(s, s.publishers[action.p], action)
    else None
  }

  function Run(earlier: Option<Bytes>, actions: seq<Action>): Option<State> {
    if actions == [] then Some(Initial(earlier))
    else
      match Run(earlier, actions[..|actions| - 1])
      case None => None
      case Some(s) => Step(s, actions[|actions| - 1])
  }

  // ---- The invariant ----

  /** An inode that has been the target: the earlier document, or a publisher's finished file. */
  ghost predicate Complete(files: map<Inode, Bytes>, publishers: map<PublisherId, Publisher>, earlier: Option<Bytes>,
                           inode: Inode)
  {
    && inode in files
    && ((inode == 0 && earlier == Some(files[inode]))
        || exists p :: p in publishers && publishers[p].changedTarget && publishers[p].inode == Some(inode))
  }

  /** What a publisher's variables say about its calls and its effects. */
  ghost predicate VariablesOk(q: Publisher) {
    && q.directoryOpens <= 1 && q.tempOpens <= 1
    && q.directoryOpens == q.directoryCloses + (if q.directoryOpen then 1 else 0)
    && q.tempOpens == q.tempCloses + (if q.tempOpen then 1 else 0)
    && (q.tempOpens == 1 <==> q.inode.Some?)
    && q.written <= |q.encoded|
    && (q.inode.None? ==> q.written == 0)
    && (q.changedTarget ==> q.written == |q.encoded| && q.inode.Some? && !q.tempOpen && q.stage == ReplaceTarget)
    && (q.stage == ReplaceTarget <==> q.replacement != NotReplaced)
    && (q.stage == ReplaceTarget ==> q.written == |q.encoded| && !q.tempOpen && q.inode.Some?)
    && (q.replacement == Replaced <==> q.changedTarget && !q.ownsTemp)
    && (q.changedTarget ==> q.replacement != NotReplaced)
    && (q.inode.Some? && !q.ownsTemp ==> q.replacement == Replaced)
    && (q.ownsTemp ==> q.inode.Some? && (q.directoryOpen || q.pc.Done? || q.pc.Stopped?))
    && (!q.failed && (q.pc.ClosingLeftTemp? || q.pc.Unlinking? || q.pc.ClosingDirectory?) ==> q.replacement == Replaced)
    && (q.replacement == Replaced && q.failed ==> (q.pc.Done? || q.pc.Stopped?) && q.directoryCloseFailed)
    && match q.pc {
         case OpeningDirectory =>
           q.directoryOpens == 0 && q.inode.None? && !q.failed && q.stage == CreateTemp && !q.ownsTemp
         case OpeningTemp => q.directoryOpen && q.tempOpens == 0 && q.inode.None? && !q.failed && q.stage == CreateTemp
         case Writing => q.directoryOpen && q.tempOpen && q.ownsTemp && !q.failed && q.stage == WriteTemp
         case Replacing => q.directoryOpen && q.ownsTemp && !q.failed && q.replacement == Unknown && !q.changedTarget
         case ClosingLeftTemp => true
         case Unlinking => !q.tempOpen
         case ClosingDirectory => !q.tempOpen
         case Done(outcome) =>
           && !q.tempOpen && !q.directoryOpen
           && (outcome.Published? ==> q.replacement == Replaced)
           && (outcome.PublishError? ==> q.failed && outcome.stage == q.stage && outcome.replacement == q.replacement)
         case Stopped => true
       }
  }

  /** A publisher's file holds what it has written, and its temporary name points there until it is renamed or
      unlinked. */
  ghost predicate FileOk(files: map<Inode, Bytes>, next: Inode, temps: map<PublisherId, Inode>, p: PublisherId,
      q: Publisher) {
    && (q.inode.Some? ==>
          && 0 < q.inode.value < next
          && q.written <= |q.encoded|
          && q.inode.value in files && files[q.inode.value] == q.encoded[..q.written])
    && (p in temps ==> q.inode == Some(temps[p]) && q.ownsTemp && !q.changedTarget)
    && (q.pc.Writing? || q.pc.Replacing? ==> p in temps)
    && (q.pc.Done? && p in temps ==> q.unlinkFailed)
    && (q.pc.ClosingDirectory? && p in temps ==> q.unlinkFailed)
  }

  ghost predicate PublishersOk(s: State) {
    forall p | p in s.publishers ::
      VariablesOk(s.publishers[p]) && FileOk(s.files, s.next, s.temps, p, s.publishers[p])
  }

  ghost predicate ReaderOk(files: map<Inode, Bytes>, publishers: map<PublisherId, Publisher>, earlier: Option<Bytes>,
                           reader: Reader)
  {
    && Complete(files, publishers, earlier, reader.inode)
    && reader.got <= files[reader.inode]
    && (reader.sawEnd ==> reader.got == files[reader.inode])
  }

  ghost predicate Inv(s: State, earlier: Option<Bytes>) {
    && s.next > 0
    && (forall i | i in s.files :: i < s.next)
    && (earlier.Some? ==> 0 in s.files && s.files[0] == earlier.value)
    && (s.target.Some? ==> Complete(s.files, s.publishers, earlier, s.target.value))
    && (earlier.Some? ==> s.target.Some?)
    && (forall p | p in s.temps :: p in s.publishers)
    && PublishersOk(s)
    && (forall p, q | p in s.publishers && q in s.publishers && p != q && s.publishers[p].inode.Some? ::
          s.publishers[p].inode != s.publishers[q].inode)
    && (forall r | r in s.readers :: ReaderOk(s.files, s.publishers, earlier, s.readers[r]))
  }

  /** What a step of publisher p may touch: its own variables, its own unfinished file, its own temporary
      name, and the target by making its own finished file the target. */
  ghost predicate OwnUpdate(s: State, t: State, p: PublisherId, q: Publisher) {
    && p in s.publishers
    && t.publishers == s.publishers[p := q] && t.readers == s.readers && t.next >= s.next
    && (forall i | i in s.files ::
          i in t.files && (t.files[i] == s.files[i]
              || (s.publishers[p].inode == Some(i) && !s.publishers[p].changedTarget)))
    && (forall i | i in t.files :: i < t.next)
    && (forall x | x != p :: x in t.temps <==> x in s.temps)
    && (forall x | x != p && x in s.temps :: t.temps[x] == s.temps[x])
    && (q.inode == s.publishers[p].inode || (s.publishers[p].inode.None? && q.inode == Some(s.next)))
    && (s.publishers[p].changedTarget ==> q.changedTarget)
    && (t.target == s.target || (q.changedTarget && t.target == q.inode))
  }

  lemma CompleteStays(s: State, t: State, earlier: Option<Bytes>, p: PublisherId, q: Publisher, i: Inode)
    requires Inv(s, earlier) && Complete(s.files, s.publishers, earlier, i) && OwnUpdate(s, t, p, q)
    ensures Complete(t.files, t.publishers, earlier, i) && t.files[i] == s.files[i]
  {
    if x :| x in s.publishers && s.publishers[x].changedTarget && s.publishers[x].inode == Some(i) {
      assert VariablesOk(s.publishers[x]) && FileOk(s.files, s.next, s.temps, x, s.publishers[x]);
      assert t.publishers[x].changedTarget && t.publishers[x].inode == Some(i);
    } else {
      assert FileOk(s.files, s.next, s.temps, p, s.publishers[p]);
    }
  }

  lemma OthersFilesStay(s: State, t: State, earlier: Option<Bytes>, p: PublisherId, q: Publisher, x: PublisherId)
    requires Inv(s, earlier) && OwnUpdate(s, t, p, q) && x in s.publishers && x != p
    ensures FileOk(t.files, t.next, t.temps, x, s.publishers[x])
    ensures s.publishers[x].inode.Some? ==> s.publishers[x].inode != q.inode
  {
    assert FileOk(s.files, s.next, s.temps, x, s.publishers[x]);
  }

  lemma UpdateKeepsInv(s: State, t: State, earlier: Option<Bytes>, p: PublisherId, q: Publisher)
    requires Inv(s, earlier) && OwnUpdate(s, t, p, q)
    requires VariablesOk(q) && FileOk(t.files, t.next, t.temps, p, q)
    ensures Inv(t, earlier)
  {
    if t.target == s.target && s.target.Some? {
      CompleteStays(s, t, earlier, p, q, s.target.value);
    } else if t.target.Some? {
      assert t.publishers[p].changedTarget;
    }
    if earlier.Some? {
      CompleteStays(s, t, earlier, p, q, 0);
    }
    forall x | x in t.publishers && x != p
      ensures FileOk(t.files, t.next, t.temps, x, t.publishers[x])
      ensures t.publishers[x].inode.Some? ==> t.publishers[x].inode != q.inode
    {
      OthersFilesStay(s, t, earlier, p, q, x);
    }
    forall r | r in t.readers ensures ReaderOk(t.files, t.publishers, earlier, t.readers[r]) {
      assert ReaderOk(s.files, s.publishers, earlier, s.readers[r]);
      CompleteStays(s, t, earlier, p, q, s.readers[r].inode);
    }
  }

  lemma OpenDirectoryKeepsInv(s: State, earlier: Option<Bytes>, p: PublisherId, ok: bool, t: State)
    requires Inv(s, earlier) && p in s.publishers && OpenDirectoryStep(s, p, s.publishers[p], ok) == Some(t)
    ensures Inv(t, earlier)
  {
    assert VariablesOk(s.publishers[p]) && FileOk(s.files, s.next, s.temps, p, s.publishers[p]);
    UpdateKeepsInv(s, t, earlier, p, t.publishers[p]);
  }

  lemma OpenTempIsOwn(s: State, p: PublisherId, ok: bool, t: State)
    requires p in s.publishers && OpenTempStep(s, p, s.publishers[p], ok) == Some(t)
    requires forall i | i in s.files :: i < s.next
    requires s.next > 0 && VariablesOk(s.publishers[p]) && FileOk(s.files, s.next, s.temps, p, s.publishers[p])
    ensures p in t.publishers && OwnUpdate(s, t, p, t.publishers[p])
    ensures VariablesOk(t.publishers[p]) && FileOk(t.files, t.next, t.temps, p, t.publishers[p])
  {
  }

  lemma OpenTempKeepsInv(s: State, earlier: Option<Bytes>, p: PublisherId, ok: bool, t: State)
    requires Inv(s, earlier) && p in s.publishers && OpenTempStep(s, p, s.publishers[p], ok) == Some(t)
    ensures Inv(t, earlier)
  {
    OpenTempIsOwn(s, p, ok, t);
    UpdateKeepsInv(s, t, earlier, p, t.publishers[p]);
  }

  lemma WriteIsOwn(s: State, p: PublisherId, count: nat, t: State)
    requires p in s.publishers && WriteStep(s, p, s.publishers[p], count) == Some(t)
    requires forall i | i in s.files :: i < s.next
    requires s.next > 0 && VariablesOk(s.publishers[p]) && FileOk(s.files, s.next, s.temps, p, s.publishers[p])
    ensures p in t.publishers && OwnUpdate(s, t, p, t.publishers[p])
    ensures VariablesOk(t.publishers[p]) && FileOk(t.files, t.next, t.temps, p, t.publishers[p])
  {
    var q := s.publishers[p];
    assert q.encoded[..q.written] + q.encoded[q.written..q.written + count] == q.encoded[..q.written + count];
  }

  lemma WriteKeepsInv(s: State, earlier: Option<Bytes>, p: PublisherId, count: nat, t: State)
    requires Inv(s, earlier) && p in s.publishers && WriteStep(s, p, s.publishers[p], count) == Some(t)
    ensures Inv(t, earlier)
  {
    WriteIsOwn(s, p, count, t);
    UpdateKeepsInv(s, t, earlier, p, t.publishers[p]);
  }

  lemma WriteFailsKeepsInv(s: State, earlier: Option<Bytes>, p: PublisherId, t: State)
    requires Inv(s, earlier) && p in s.publishers && WriteFailsStep(s, p, s.publishers[p]) == Some(t)
    ensures Inv(t, earlier)
  {
    assert VariablesOk(s.publishers[p]) && FileOk(s.files, s.next, s.temps, p, s.publishers[p]);
    UpdateKeepsInv(s, t, earlier, p, t.publishers[p]);
  }

  lemma CloseTempKeepsInv(s: State, earlier: Option<Bytes>, p: PublisherId, ok: bool, t: State)
    requires Inv(s, earlier) && p in s.publishers && CloseTempStep(s, p, s.publishers[p], ok) == Some(t)
    ensures Inv(t, earlier)
  {
    assert VariablesOk(s.publishers[p]) && FileOk(s.files, s.next, s.temps, p, s.publishers[p]);
    UpdateKeepsInv(s, t, earlier, p, t.publishers[p]);
  }

  lemma RenameIsOwn(s: State, p: PublisherId, result: RenameResult, t: State)
    requires p in s.publishers && RenameStep(s, p, s.publishers[p], result) == Some(t)
    requires forall i | i in s.files :: i < s.next
    requires s.next > 0 && VariablesOk(s.publishers[p]) && FileOk(s.files, s.next, s.temps, p, s.publishers[p])
    ensures p in t.publishers && OwnUpdate(s, t, p, t.publishers[p])
    ensures VariablesOk(t.publishers[p]) && FileOk(t.files, t.next, t.temps, p, t.publishers[p])
  {
  }

  lemma RenameKeepsInv(s: State, earlier: Option<Bytes>, p: PublisherId, result: RenameResult, t: State)
    requires Inv(s, earlier) && p in s.publishers && RenameStep(s, p, s.publishers[p], result) == Some(t)
    ensures Inv(t, earlier)
  {
    RenameIsOwn(s, p, result, t);
    UpdateKeepsInv(s, t, earlier, p, t.publishers[p]);
  }

  lemma CloseLeftTempKeepsInv(s: State, earlier: Option<Bytes>, p: PublisherId, ok: bool, t: State)
    requires Inv(s, earlier) && p in s.publishers && CloseLeftTempStep(s, p, s.publishers[p], ok) == Some(t)
    ensures Inv(t, earlier)
  {
    assert VariablesOk(s.publishers[p]) && FileOk(s.files, s.next, s.temps, p, s.publishers[p]);
    UpdateKeepsInv(s, t, earlier, p, t.publishers[p]);
  }

  lemma UnlinkIsOwn(s: State, p: PublisherId, ok: bool, t: State)
    requires p in s.publishers && UnlinkStep(s, p, s.publishers[p], ok) == Some(t)
    requires forall i | i in s.files :: i < s.next
    requires s.next > 0 && VariablesOk(s.publishers[p]) && FileOk(s.files, s.next, s.temps, p, s.publishers[p])
    ensures p in t.publishers && OwnUpdate(s, t, p, t.publishers[p])
    ensures VariablesOk(t.publishers[p]) && FileOk(t.files, t.next, t.temps, p, t.publishers[p])
  {
  }

  lemma UnlinkKeepsInv(s: State, earlier: Option<Bytes>, p: PublisherId, ok: bool, t: State)
    requires Inv(s, earlier) && p in s.publishers && UnlinkStep(s, p, s.publishers[p], ok) == Some(t)
    ensures Inv(t, earlier)
  {
    UnlinkIsOwn(s, p, ok, t);
    UpdateKeepsInv(s, t, earlier, p, t.publishers[p]);
  }

  lemma CloseDirectoryKeepsInv(s: State, earlier: Option<Bytes>, p: PublisherId, ok: bool, t: State)
    requires Inv(s, earlier) && p in s.publishers && CloseDirectoryStep(s, p, s.publishers[p], ok) == Some(t)
    ensures Inv(t, earlier)
  {
    assert VariablesOk(s.publishers[p]) && FileOk(s.files, s.next, s.temps, p, s.publishers[p]);
    UpdateKeepsInv(s, t, earlier, p, t.publishers[p]);
  }

  lemma StopKeepsInv(s: State, earlier: Option<Bytes>, p: PublisherId, t: State)
    requires Inv(s, earlier) && p in s.publishers && StopStep(s, p, s.publishers[p]) == Some(t)
    ensures Inv(t, earlier)
  {
    assert VariablesOk(s.publishers[p]) && FileOk(s.files, s.next, s.temps, p, s.publishers[p]);
    UpdateKeepsInv(s, t, earlier, p, t.publishers[p]);
  }

  lemma StartLeavesComplete(s: State, earlier: Option<Bytes>, p: PublisherId, encoded: Bytes, i: Inode)
    requires p !in s.publishers && Complete(s.files, s.publishers, earlier, i)
    ensures Complete(s.files, s.publishers[p := NewPublisher(encoded)], earlier, i)
  {
    var publishers := s.publishers[p := NewPublisher(encoded)];
    if x :| x in s.publishers && s.publishers[x].changedTarget && s.publishers[x].inode == Some(i) {
      assert publishers[x] == s.publishers[x];
    }
  }

  lemma StartLeavesReader(s: State, earlier: Option<Bytes>, p: PublisherId, encoded: Bytes, reader: Reader)
    requires p !in s.publishers && ReaderOk(s.files, s.publishers, earlier, reader)
    ensures ReaderOk(s.files, s.publishers[p := NewPublisher(encoded)], earlier, reader)
  {
    StartLeavesComplete(s, earlier, p, encoded, reader.inode);
  }

  /** A publisher that has not begun agrees with any directory. */
  lemma NewPublisherOk(s: State, p: PublisherId, encoded: Bytes)
    requires p !in s.temps
    ensures VariablesOk(NewPublisher(encoded)) && FileOk(s.files, s.next, s.temps, p, NewPublisher(encoded))
  {}

  lemma StartKeepsInv(s: State, earlier: Option<Bytes>, p: PublisherId, encoded: Bytes)
    requires Inv(s, earlier) && p !in s.publishers
    ensures Inv(With(s, p, NewPublisher(encoded)), earlier)
  {
    var t := With(s, p, NewPublisher(encoded));
    NewPublisherOk(s, p, encoded);
    if s.target.Some? {
      StartLeavesComplete(s, earlier, p, encoded, s.target.value);
    }
    forall r | r in t.readers ensures ReaderOk(t.files, t.publishers, earlier, t.readers[r]) {
      StartLeavesReader(s, earlier, p, encoded, s.readers[r]);
    }
  }

  /** A reader's step changes the readers alone. */
  lemma ReadingLeavesRest(s: State, action: Action, t: State)
    requires ReaderStep(s, action) == Some(t)
    ensures t == s.(readers := t.readers)
  {}

  lemma ReadingKeepsReader(s: State, earlier: Option<Bytes>, action: Action, t: State, r: ReaderId)
    requires ReaderStep(s, action) == Some(t) && r in t.readers
    requires s.target.Some? ==> Complete(s.files, s.publishers, earlier, s.target.value)
    requires r in s.readers ==> ReaderOk(s.files, s.publishers, earlier, s.readers[r])
    ensures ReaderOk(s.files, s.publishers, earlier, t.readers[r])
  {}

  lemma ReadingKeepsInv(s: State, earlier: Option<Bytes>, action: Action, t: State)
    requires Inv(s, earlier) && ReaderStep(s, action) == Some(t)
    ensures Inv(t, earlier)
  {
    ReadingLeavesRest(s, action, t);
    forall r | r in t.readers ensures ReaderOk(s.files, s.publishers, earlier, t.readers[r]) {
      ReadingKeepsReader(s, earlier, action, t, r);
    }
  }

  lemma StepKeepsInv(s: State, earlier: Option<Bytes>, action: Action, t: State)
    requires Inv(s, earlier) && Step(s, action) == Some(t)
    ensures Inv(t, earlier)
  {
    match action {
      case Start(p, encoded) => StartKeepsInv(s, earlier, p, encoded);
      case OpenDirectory(p, ok) => OpenDirectoryKeepsInv(s, earlier, p, ok, t);
      case OpenTemp(p, ok) => OpenTempKeepsInv(s, earlier, p, ok, t);
      case Write(p, count) => WriteKeepsInv(s, earlier, p, count, t);
      case WriteFails(p) => WriteFailsKeepsInv(s, earlier, p, t);
      case CloseTemp(p, ok) => CloseTempKeepsInv(s, earlier, p, ok, t);
      case Rename(p, result) => RenameKeepsInv(s, earlier, p, result, t);
      case CloseLeftTemp(p, ok) => CloseLeftTempKeepsInv(s, earlier, p, ok, t);
      case Unlink(p, ok) => UnlinkKeepsInv(s, earlier, p, ok, t);
      case CloseDirectory(p, ok) => CloseDirectoryKeepsInv(s, earlier, p, ok, t);
      case Stop(p) => StopKeepsInv(s, earlier, p, t);
      case _ => ReadingKeepsInv(s, earlier, action, t);
    }
  }

  lemma {:induction false} RunKeepsInv(earlier: Option<Bytes>, actions: seq<Action>, s: State)
    requires Run(earlier, actions) == Some(s)
    ensures Inv(s, earlier)
  {
    if actions != [] {
      var before := actions[..|actions| - 1];
      RunKeepsInv(earlier, before, Run(earlier, before).value);
      StepKeepsInv(Run(earlier, before).value, earlier, actions[|actions| - 1], s);
    }
  }

  /** The bytes the target name gives. */
  function TargetBytes(s: State): Option<Bytes> {
    if s.target.Some? && s.target.value in s.files then Some(s.files[s.target.value]) else None
  }

  /** Bytes that a reader may see as the document. */
  ghost predicate WholeDocument(s: State, earlier: Option<Bytes>, bytes: Bytes) {
    || earlier == Some(bytes)
    || exists p :: p in s.publishers && s.publishers[p].changedTarget && s.publishers[p].encoded == bytes
  }

  lemma CompleteIsWhole(s: State, earlier: Option<Bytes>, inode: Inode)
    requires Inv(s, earlier) && Complete(s.files, s.publishers, earlier, inode)
    ensures WholeDocument(s, earlier, s.files[inode])
  {
    if p :| p in s.publishers && s.publishers[p].changedTarget && s.publishers[p].inode == Some(inode) {
      var q := s.publishers[p];
      assert VariablesOk(q) && FileOk(s.files, s.next, s.temps, p, q);
      assert q.encoded[..q.written] == q.encoded;
    }
  }

  /** ATOMIC REPLACEMENT: in every interleaving of publishers, with any call failing and any process stopping
      anywhere, the target gives its earlier content or one publisher's complete encoded bytes; and whoever
      reads it, byte by byte while publishers run, sees a prefix of one such document, all of it at its end. */
  lemma TargetIsAlwaysWhole(earlier: Option<Bytes>, actions: seq<Action>, s: State)
    requires Run(earlier, actions) == Some(s)
    ensures TargetBytes(s).None? ==> earlier.None?
    ensures TargetBytes(s).Some? ==> WholeDocument(s, earlier, TargetBytes(s).value)
    ensures (forall p | p in s.publishers :: !s.publishers[p].changedTarget) ==> TargetBytes(s) == earlier
    ensures forall r | r in s.readers :: exists bytes ::
              WholeDocument(s, earlier, bytes) && s.readers[r].got <= bytes
                  && (s.readers[r].sawEnd ==> s.readers[r].got == bytes)
  {
    RunKeepsInv(earlier, actions, s);
    if s.target.Some? {
      CompleteIsWhole(s, earlier, s.target.value);
    }
    forall r | r in s.readers
      ensures exists bytes ::
                WholeDocument(s, earlier, bytes) && s.readers[r].got <= bytes
                    && (s.readers[r].sawEnd ==> s.readers[r].got == bytes)
    {
      assert ReaderOk(s.files, s.publishers, earlier, s.readers[r]);
      CompleteIsWhole(s, earlier, s.readers[r].inode);
    }
  }

  /** The publisher whose rename was the last to take effect. */
  function LastReplacer(actions: seq<Action>): Option<PublisherId> {
    if actions == [] then None
    else
      match actions[|actions| - 1]
      case Rename(p, result) => if result.NotRenamed? then LastReplacer(actions[..|actions| - 1]) else Some(p)
      case _ => LastReplacer(actions[..|actions| - 1])
  }

  /** The target name points at this publisher's file, or still at the earlier one. */
  ghost predicate PlacedBy(s: State, earlier: Option<Bytes>, last: Option<PublisherId>) {
    match last
    case None => s.target == (if earlier.None? then None else Some(0))
    case Some(p) => p in s.publishers && s.publishers[p].changedTarget && s.target == s.publishers[p].inode
  }

  /** A step of publisher p that leaves the target, and who has changed it, alone. */
  ghost predicate LeavesTarget(s: State, p: PublisherId, t: State) {
    && p in s.publishers && p in t.publishers && t.publishers == s.publishers[p := t.publishers[p]]
    && t.target == s.target
    && (s.publishers[p].changedTarget ==>
          t.publishers[p].changedTarget && t.publishers[p].inode == s.publishers[p].inode)
  }

  lemma WritingLeavesTarget(s: State, p: PublisherId, t: State)
    requires p in s.publishers && VariablesOk(s.publishers[p])
    requires || OpenDirectoryStep(s, p, s.publishers[p], true) == Some(t)
             || OpenDirectoryStep(s, p, s.publishers[p], false) == Some(t)
             || OpenTempStep(s, p, s.publishers[p], true) == Some(t)
             || OpenTempStep(s, p, s.publishers[p], false) == Some(t)
             || WriteFailsStep(s, p, s.publishers[p]) == Some(t)
             || (exists count :: WriteStep(s, p, s.publishers[p], count) == Some(t))
    ensures LeavesTarget(s, p, t)
  {}

  lemma ClosingLeavesTarget(s: State, p: PublisherId, ok: bool, t: State)
    requires p in s.publishers
    requires || CloseTempStep(s, p, s.publishers[p], ok) == Some(t)
             || CloseLeftTempStep(s, p, s.publishers[p], ok) == Some(t)
             || CloseDirectoryStep(s, p, s.publishers[p], ok) == Some(t)
    ensures LeavesTarget(s, p, t)
  {}

  lemma EndingLeavesTarget(s: State, p: PublisherId, ok: bool, t: State)
    requires p in s.publishers
    requires || UnlinkStep(s, p, s.publishers[p], ok) == Some(t)
             || StopStep(s, p, s.publishers[p]) == Some(t)
             || RenameStep(s, p, s.publishers[p], NotRenamed) == Some(t)
    ensures LeavesTarget(s, p, t)
  {}

  lemma LeavingTargetPlaces(s: State, earlier: Option<Bytes>, last: Option<PublisherId>, p: PublisherId, t: State)
    requires PlacedBy(s, earlier, last) && LeavesTarget(s, p, t)
    ensures PlacedBy(t, earlier, last)
  {}

  lemma QuietStepPlaces(s: State, earlier: Option<Bytes>, last: Option<PublisherId>, action: Action, t: State)
    requires !action.Start? && !action.OpenTarget? && !action.ReadSome? && !action.ReadEnd?
    requires !action.Rename? || action.result.NotRenamed?
    requires action.p in s.publishers && VariablesOk(s.publishers[action.p])
    requires PlacedBy(s, earlier, last) && PublisherStep(s, s.publishers[action.p], action) == Some(t)
    ensures PlacedBy(t, earlier, last)
  {
    var p := action.p;
    if action.CloseTemp? || action.CloseLeftTemp? || action.CloseDirectory? {
      ClosingLeavesTarget(s, p, action.ok, t);
    } else if action.Rename? || action.Stop? {
      EndingLeavesTarget(s, p, true, t);
    } else if action.Unlink? {
      EndingLeavesTarget(s, p, action.ok, t);
    } else {
      WritingLeavesTarget(s, p, t);
    }
    LeavingTargetPlaces(s, earlier, last, p, t);
  }

  lemma StartOrReadPlaces(s: State, earlier: Option<Bytes>, last: Option<PublisherId>, action: Action, t: State)
    requires action.Start? || action.OpenTarget? || action.ReadSome? || action.ReadEnd?
    requires PlacedBy(s, earlier, last) && Step(s, action) == Some(t)
    ensures PlacedBy(t, earlier, last)
  {}

  lemma RenamePlaces(s: State, earlier: Option<Bytes>, p: PublisherId, result: RenameResult, t: State)
    requires p in s.publishers && FileOk(s.files, s.next, s.temps, p, s.publishers[p])
    requires RenameStep(s, p, s.publishers[p], result) == Some(t) && !result.NotRenamed?
    ensures PlacedBy(t, earlier, Some(p))
  {}

  /** Only a rename that takes effect moves the target, and it moves it to the publisher's own file. */
  lemma StepPlaces(s: State, earlier: Option<Bytes>, last: Option<PublisherId>, action: Action, t: State)
    requires PlacedBy(s, earlier, last) && Step(s, action) == Some(t) && PublishersOk(s)
    ensures PlacedBy(t, earlier, if action.Rename? && !action.result.NotRenamed? then Some(action.p) else last)
  {
    if action.Start? || action.OpenTarget? || action.ReadSome? || action.ReadEnd? {
      StartOrReadPlaces(s, earlier, last, action, t);
    } else {
      assert VariablesOk(s.publishers[action.p])
             && FileOk(s.files, s.next, s.temps, action.p, s.publishers[action.p]);
      if action.Rename? && !action.result.NotRenamed? {
        RenamePlaces(s, earlier, action.p, action.result, t);
      } else {
        QuietStepPlaces(s, earlier, last, action, t);
      }
    }
  }

  lemma {:induction false} RunPlaces(earlier: Option<Bytes>, actions: seq<Action>, s: State)
    requires Run(earlier, actions) == Some(s)
    ensures PlacedBy(s, earlier, LastReplacer(actions))
  {
    if actions != [] {
      var before := actions[..|actions| - 1];
      RunPlaces(earlier, before, Run(earlier, before).value);
      RunKeepsInv(earlier, before, Run(earlier, before).value);
      StepPlaces(Run(earlier, before).value, earlier, LastReplacer(before), actions[|actions| - 1], s);
    }
  }

  /** LAST RENAME WINS: the target gives exactly the complete bytes of the publisher whose rename was the last to
      take effect, whether or not that rename reported it, and the earlier content if none did. */
  lemma LastRenameWins(earlier: Option<Bytes>, actions: seq<Action>, s: State)
    requires Run(earlier, actions) == Some(s)
    ensures match LastReplacer(actions) {
              case None => TargetBytes(s) == earlier
              case Some(p) => p in s.publishers && s.publishers[p].changedTarget
                && TargetBytes(s) == Some(s.publishers[p].encoded)
            }
  {
    RunKeepsInv(earlier, actions, s);
    RunPlaces(earlier, actions, s);
    var last := LastReplacer(actions);
    if last.Some? {
      var q := s.publishers[last.value];
      assert VariablesOk(q) && FileOk(s.files, s.next, s.temps, last.value, q);
      assert q.encoded[..q.written] == q.encoded;
    }
  }

  /** HONEST OUTCOMES: a finished publisher that reports success replaced the target; one that reports
      NOT_REPLACED did not; one that reports REPLACED did, and only closing its directory failed. */
  lemma OutcomesAreHonest(earlier: Option<Bytes>, actions: seq<Action>, s: State, p: PublisherId)
    requires Run(earlier, actions) == Some(s) && p in s.publishers && s.publishers[p].pc.Done?
    ensures var q := s.publishers[p];
            match q.pc.outcome {
              case Published => q.changedTarget
              case PublishError(stage, replacement) =>
                && (replacement == NotReplaced ==> !q.changedTarget)
                && (replacement == Replaced ==> q.changedTarget && q.directoryCloseFailed)
                && (replacement == NotReplaced <==> stage != ReplaceTarget)
            }
  {
    RunKeepsInv(earlier, actions, s);
    assert VariablesOk(s.publishers[p]);
  }

  /** CLEAN FINISH: a publisher that runs to completion has closed each descriptor it opened exactly once, and
      leaves its temporary file behind only when removing it failed. */
  lemma FinishIsClean(earlier: Option<Bytes>, actions: seq<Action>, s: State, p: PublisherId)
    requires Run(earlier, actions) == Some(s) && p in s.publishers && s.publishers[p].pc.Done?
    ensures var q := s.publishers[p];
            && q.directoryOpens == q.directoryCloses <= 1
            && q.tempOpens == q.tempCloses <= 1
            && (p in s.temps ==> q.unlinkFailed && !q.changedTarget)
  {
    RunKeepsInv(earlier, actions, s);
    assert VariablesOk(s.publishers[p]) && FileOk(s.files, s.next, s.temps, p, s.publishers[p]);
  }

  /** An outcome of UNKNOWN really is unknown: from any state about to rename, the reported failure can come
      with the target replaced and with the target left alone. */
  lemma UnknownIsBothWays(earlier: Option<Bytes>, s: State, p: PublisherId)
    requires Inv(s, earlier) && p in s.publishers && s.publishers[p].pc.Replacing?
    ensures var a, b := Step(s, Rename(p, NotRenamed)), Step(s, Rename(p, RenamedButFailed));
            && a.Some? && b.Some?
            && a.value.publishers[p].replacement == Unknown == b.value.publishers[p].replacement
            && TargetBytes(a.value) == TargetBytes(s)
            && TargetBytes(b.value) == Some(s.publishers[p].encoded)
  {
    var q := s.publishers[p];
    assert VariablesOk(q) && FileOk(s.files, s.next, s.temps, p, q);
    assert q.encoded[..q.written] == q.encoded;
  }
}
