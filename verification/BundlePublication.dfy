/** Artifact bundle publication (src/dr_store/artifact_bundle/publication.py and models.py).

    Any number of threads open artifacts, write to them and publish. A step is one region under the
    publication's lock or one file operation; a writer is used by one caller at a time. */
module BundlePublication {
  import opened Wrappers
  import opened Names

  type Bytes = seq<bv8>
  type ThreadId = nat

  datatype Status = Open | Poisoned | Terminal
  datatype WriterState = Active | Finalized | Failed

  datatype Descriptor = Descriptor(name: string, sha256: string, byteLength: nat)

  /** The fields under the lock; order is the insertion order of the descriptor dictionary. */
  datatype Shared = Shared(
    status: Status, writers: map<string, WriterState>, descriptors: map<string, Descriptor>, order: seq<string>)

  // ---- The locked regions ----

  function Reserve(f: Shared, name: string): (Shared, bool) {
    if f.status != Open || name in f.writers then (f, false) else (f.(writers := f.writers[name := Active]), true)
  }

  function CreationFailed(f: Shared, name: string): Shared {
    f.(writers := f.writers[name := Failed], status := Poisoned)
  }

  /** The last check of open_artifact: a publication that is no longer open gives the name back. */
  function Admit(f: Shared, name: string): (Shared, bool) {
    if f.status != Open then (f.(writers := f.writers - {name}), false) else (f, true)
  }

  predicate IsActive(f: Shared, name: string) {
    name in f.writers && f.writers[name] == Active
  }

  function WriterFailed(f: Shared, name: string): Shared {
    if IsActive(f, name) then f.(writers := f.writers[name := Failed], status := Poisoned) else f
  }

  function WriterFinalized(f: Shared, name: string, descriptor: Descriptor): (Shared, bool) {
    if !IsActive(f, name) then (f, false)
    else (f.(descriptors := f.descriptors[name := descriptor],
             order := if name in f.descriptors then f.order else f.order + [name],
             writers := f.writers[name := Finalized]), true)
  }

  predicate Publishable(f: Shared) {
    f.status == Open && forall n | n in f.writers :: f.writers[n] != Active
  }

  /** The descriptors in the sorted order of their names. */
  function SortedDescriptors(f: Shared): seq<Descriptor>
    requires forall n | n in f.order :: n in f.descriptors
  {
    SortedKeepsNames(f.order);
    var names := Sorted(f.order);
    seq(|names|, i requires 0 <= i < |names| => f.descriptors[names[i]])
  }

  function BeginPublish(f: Shared): Shared {
    f.(status := Terminal)
  }

  /** Descriptors are filed under their own names, for exactly the finalized writers. */
  ghost predicate DescriptorsFiled(f: Shared) {
    && (forall n :: n in f.descriptors <==> n in f.writers && f.writers[n] == Finalized)
    && (forall n :: n in f.order <==> n in f.descriptors)
    && Unique(f.order)
    && (forall n | n in f.descriptors :: f.descriptors[n].name == n)
  }

  /** An open publication has no failed writer, and a terminal one only finalized ones. */
  ghost predicate StatusOk(f: Shared) {
    && (f.status == Open ==> forall n | n in f.writers :: f.writers[n] != Failed)
    && (f.status == Terminal ==> forall n | n in f.writers :: f.writers[n] == Finalized)
  }

  /** The publication object's side of these regions. */
  class Publication {
    var status: Status
    var writers: map<string, WriterState>
    var descriptors: map<string, Descriptor>
    var order: seq<string>

    constructor ()
      ensures Valid() && Fields() == Shared(Open, map[], map[], [])
    {
      status, writers, descriptors, order := Open, map[], map[], [];
    }

    ghost predicate Valid()
      reads this
    {
      DescriptorsFiled(Fields()) && StatusOk(Fields())
    }

    function Fields(): Shared
      reads this
    {
      Shared(status, writers, descriptors, order)
    }

    /** A name is reserved exactly if the publication is open and nobody ever reserved it. */
    method ReserveName(name: string) returns (ok: bool)
      requires Valid()
      modifies this
      ensures Valid() && status == old(status) && descriptors == old(descriptors)
      ensures ok <==> old(status) == Open && name !in old(writers)
      ensures ok ==> IsActive(Fields(), name) && writers - {name} == old(writers)
      ensures !ok ==> writers == old(writers)
      ensures Fields() == Reserve(old(Fields()), name).0 && ok == Reserve(old(Fields()), name).1
    {
      if status == Poisoned || status == Terminal {
        return false;
      }
      if name in writers {
        return false;
      }
      writers := writers[name := Active];
      return true;
    }

    /** A failed creation poisons the publication, which cannot have become terminal meanwhile, and touches no
        other writer and no descriptor. */
    method RecordCreationFailure(name: string)
      requires Valid() && IsActive(Fields(), name)
      modifies this
      ensures Valid() && old(status) != Terminal && status == Poisoned
      ensures name in writers && writers[name] == Failed && writers - {name} == old(writers) - {name}
      ensures descriptors == old(descriptors)
      ensures Fields() == CreationFailed(old(Fields()), name)
    {
      writers := writers[name := Failed];
      status := Poisoned;
    }

    /** A reserved writer is admitted exactly while the publication is open; otherwise it has been poisoned, never
        made terminal, and the name is given back without a trace. */
    method AdmitWriter(name: string) returns (ok: bool)
      requires Valid() && IsActive(Fields(), name)
      modifies this
      ensures Valid() && old(status) != Terminal && (ok <==> old(status) == Open)
      ensures ok ==> Fields() == old(Fields())
      ensures !ok ==> status == Poisoned && writers == old(writers) - {name} && descriptors == old(descriptors)
      ensures Fields() == Admit(old(Fields()), name).0 && ok == Admit(old(Fields()), name).1
    {
      if status != Open {
        writers := writers - {name};
        return false;
      }
      return true;
    }

    /** Only an active writer's failure counts: it poisons the publication and never overwrites a terminal one. */
    method RecordWriterFailure(name: string)
      requires Valid()
      modifies this
      ensures Valid() && descriptors == old(descriptors)
      ensures old(status) == Terminal ==> Fields() == old(Fields())
      ensures old(IsActive(Fields(), name)) ==>
                status == Poisoned && name in writers && writers[name] == Failed
                    && writers - {name} == old(writers) - {name}
      ensures !old(IsActive(Fields(), name)) ==> Fields() == old(Fields())
      ensures Fields() == WriterFailed(old(Fields()), name)
    {
      if name in writers && writers[name] == Active {
        writers := writers[name := Failed];
        status := Poisoned;
      }
    }

    /** Exactly an active writer is finalized; its descriptor is the one new one, never replaces another, and a
        terminal publication gains none. */
    method RecordWriterFinalized(name: string, descriptor: Descriptor) returns (ok: bool)
      requires Valid() && descriptor.name == name
      modifies this
      ensures Valid() && status == old(status) && (ok <==> old(IsActive(Fields(), name)))
      ensures old(status) == Terminal ==> !ok
      ensures !ok ==> Fields() == old(Fields())
      ensures ok ==> name !in old(descriptors) && name in descriptors && descriptors[name] == descriptor
      ensures ok ==> descriptors - {name} == old(descriptors) && writers - {name} == old(writers) - {name}
      ensures Fields() == WriterFinalized(old(Fields()), name, descriptor).0
      ensures ok == WriterFinalized(old(Fields()), name, descriptor).1
    {
      if name !in writers || writers[name] != Active {
        return false;
      }
      if name !in descriptors {
        order := order + [name];
      }
      descriptors := descriptors[name := descriptor];
      writers := writers[name := Finalized];
      return true;
    }

    /** The publication becomes terminal exactly when it is open and has no active writer. The attempt then gets the
        descriptors of all writers, in strictly increasing name order, and no later call succeeds. */
    method BeginPublication() returns (ok: bool, artifacts: seq<Descriptor>)
      requires Valid()
      modifies this
      ensures Valid() && writers == old(writers) && descriptors == old(descriptors)
      ensures ok == Publishable(old(Fields()))
      ensures ok ==>
                forall n | n in writers ::
                  writers[n] == Finalized && n in descriptors && descriptors[n] in artifacts
      ensures ok ==> forall d | d in artifacts :: d.name in descriptors && d == descriptors[d.name]
      ensures ok ==> forall i, j | 0 <= i < j < |artifacts| :: Before(artifacts[i].name, artifacts[j].name)
      ensures !Publishable(Fields())
      ensures Fields() == if ok then BeginPublish(old(Fields())) else old(Fields())
    {
      if status == Poisoned {
        return false, [];
      }
      if status == Terminal {
        return false, [];
      }
      if exists n | n in writers :: writers[n] == Active {
        return false, [];
      }
      SortedDescriptorsCarryNames(Fields());
      artifacts := SortedDescriptors(Fields());
      status := Terminal;
      return true, artifacts;
    }
  }

  /** Position by position, the sorted descriptors carry the sorted names. */
  lemma SortedDescriptorsCarryNames(f: Shared)
    requires DescriptorsFiled(f)
    ensures |SortedDescriptors(f)| == |Sorted(f.order)| && Increasing(Sorted(f.order))
    ensures forall i | 0 <= i < |Sorted(f.order)| ::
              var d := SortedDescriptors(f)[i];
              d.name == Sorted(f.order)[i] && d.name in f.descriptors && d == f.descriptors[d.name]
    ensures forall n | n in f.descriptors :: f.descriptors[n] in SortedDescriptors(f)
  {
    var artifacts, sorted := SortedDescriptors(f), Sorted(f.order);
    SortedKeepsNames(f.order);
    SortedIncreases(f.order);
    forall i | 0 <= i < |sorted|
      ensures artifacts[i].name == sorted[i] && sorted[i] in f.descriptors && artifacts[i] == f.descriptors[sorted[i]]
    {
      assert sorted[i] in f.order;
    }
    forall n | n in f.descriptors ensures f.descriptors[n] in artifacts {
      assert n in sorted;
      var i :| 0 <= i < |sorted| && sorted[i] == n;
      assert artifacts[i] == f.descriptors[n];
    }
  }

  // ---- The machine ----

  datatype OpenerPc = Reserved(name: string) | Created(name: string) | CreateFailed(name: string) | OpenerDone

  datatype WriterPc =
    | Idle
    | Writing(data: Bytes, written: nat)
    | Failing
    | Closing
    | Recording(descriptor: Descriptor)
    | Closed

  /** A writer object: what it has hashed and counted, and where its caller is. */
  datatype Writer = Writer(hashed: Bytes, byteLength: nat, pc: WriterPc)

  datatype PublisherPc = Checked | Attempting(artifacts: seq<Descriptor>) | PublisherDone

  datatype State = State(
    fields: Shared, disk: map<string, Bytes>, openers: map<ThreadId, OpenerPc>, writers: map<string, Writer>,
    publishers: map<ThreadId, PublisherPc>, attempts: seq<seq<Descriptor>>)

  datatype Action =
    | ReserveName(t: ThreadId, name: string)
    | CreateFile(t: ThreadId, ok: bool)
    | ReportCreateFailure(t: ThreadId)
    | AdmitWriter(t: ThreadId)
    | StartWrite(name: string, data: Bytes)
    | WriteSome(name: string, count: nat)
    | WriteFails(name: string)
    | FinishWrite(name: string)
    | ReportWriterFailure(name: string)
    | StartFinalize(name: string)
    | CloseFile(name: string, ok: bool)
    | RecordFinalized(name: string)
    | CheckPublish(t: ThreadId)
    | AbandonPublish(t: ThreadId)
    | Begin(t: ThreadId)
    | Attempt(t: ThreadId)

  function Initial(): State {
    State(Shared(Open, map[], map[], []), map[], map[], map[], map[], [])
  }

  function OpenerStep(s: State, t: ThreadId, action: Action): Option<State> {
    match action
    case ReserveName(_, name) =>
      if t in s.openers then None
      else
        var (f, ok) := Reserve(s.fields, name);
        Some(s.(fields := f, openers := s.openers[t := if ok then Reserved(name) else OpenerDone]))
    case CreateFile(_, ok) =>
      if t !in s.openers || !s.openers[t].Reserved? then None
      else
        var name := s.openers[t].name;
        if !ok || name in s.disk then Some(s.(openers := s.openers[t := CreateFailed(name)]))
        else Some(s.(disk := s.disk[name := []], openers := s.openers[t := Created(name)]))
    case ReportCreateFailure(_) =>
      if t !in s.openers || !s.openers[t].CreateFailed? then None
      else Some(s.(fields := CreationFailed(s.fields, s.openers[t].name), openers := s.openers[t := OpenerDone]))
    case AdmitWriter(_) =>
      if t !in s.openers || !s.openers[t].Created? then None
      else
        var name := s.openers[t].name;
        var (f, ok) := Admit(s.fields, name);
        Some(s.(fields := f, openers := s.openers[t := OpenerDone],
                writers := if ok then s.writers[name := Writer([], 0, Idle)] else s.writers))
    case _ => None
  }

  function WriterStep(sha256: Bytes -> string, s: State, name: string, action: Action): Option<State>
    requires name in s.writers
  {
    var w := s.writers[name];
    match action
    case StartWrite(_, data) =>
      if !w.pc.Idle? && !w.pc.Closed? then None
      else if !IsActive(s.fields, name) then Some(s)
      else Some(s.(writers := s.writers[name := w.(pc := Writing(data, 0))]))
    case WriteSome(_, count) =>
      if !w.pc.Writing? || name !in s.disk || count == 0 || w.pc.written + count > |w.pc.data| then None
      else
        var more := w.pc.data[w.pc.written..w.pc.written + count];
        Some(s.(disk := s.disk[name := s.disk[name] + more],
                writers := s.writers[name := w.(pc := Writing(w.pc.data, w.pc.written + count))]))
    case WriteFails(_) =>
      if !w.pc.Writing? then None else Some(s.(writers := s.writers[name := w.(pc := Failing)]))
    case FinishWrite(_) =>
      if !w.pc.Writing? || w.pc.written < |w.pc.data| then None
      else Some(s.(writers := s.writers[name := Writer(w.hashed + w.pc.data, w.byteLength + |w.pc.data|, Idle)]))
    case ReportWriterFailure(_) =>
      if !w.pc.Failing? then None
      else Some(s.(fields := WriterFailed(s.fields, name), writers := s.writers[name := w.(pc := Closed)]))
    case StartFinalize(_) =>
      if !w.pc.Idle? && !w.pc.Closed? then None
      else if !IsActive(s.fields, name) then Some(s)
      else Some(s.(writers := s.writers[name := w.(pc := Closing)]))
    case CloseFile(_, ok) =>
      if !w.pc.Closing? then None
      else if !ok then Some(s.(writers := s.writers[name := w.(pc := Failing)]))
      else Some(s.(writers := s.writers[name := w.(pc := Recording(Descriptor(name, sha256(w.hashed), w.byteLength)))]))
    case RecordFinalized(_) =>
      if !w.pc.Recording? then None
      else
        var fields := WriterFinalized(s.fields, name, w.pc.descriptor).0;
        Some(s.(fields := fields, writers := s.writers[name := w.(pc := Closed)]))
    case _ => None
  }

  function PublisherStep(s: State, t: ThreadId, action: Action): Option<State> {
    match action
    case CheckPublish(_) =>
      if t in s.publishers then None
      else Some(s.(publishers := s.publishers[t := if Publishable(s.fields) then Checked else PublisherDone]))
    case AbandonPublish(_) =>
      if t in s.publishers && s.publishers[t].Checked? then
        Some(s.(publishers := s.publishers[t := PublisherDone]))
      else None
    case Begin(_) =>
      if t !in s.publishers || !s.publishers[t].Checked? then None
      else if !Publishable(s.fields) then Some(s.(publishers := s.publishers[t := PublisherDone]))
      else if exists n | n in s.fields.order :: n !in s.fields.descriptors then None
      else
        Some(s.(fields := BeginPublish(s.fields),
                publishers := s.publishers[t := Attempting(SortedDescriptors(s.fields))]))
    case Attempt(_) =>
      if t !in s.publishers || !s.publishers[t].Attempting? then None
      else
        var attempts := s.attempts + [s.publishers[t].artifacts];
        Some(s.(attempts := attempts, publishers := s.publishers[t := PublisherDone]))
    case _ => None
  }

  function Step(sha256: Bytes -> string, s: State, action: Action): Option<State> {
    match action
    case ReserveName(t, _) => OpenerStep(s, t, action)
    case CreateFile(t, _) => OpenerStep(s, t, action)
    case ReportCreateFailure(t) => OpenerStep(s, t, action)
    case AdmitWriter(t) => OpenerStep(s, t, action)
    case CheckPublish(t) => PublisherStep(s, t, action)
    case AbandonPublish(t) => PublisherStep(s, t, action)
    case Begin(t) => PublisherStep(s, t, action)
    case Attempt(t) => PublisherStep(s, t, action)
    case _ => if action.name in s.writers then WriterStep(sha256, s, action.name, action) else None
  }

  function Run(sha256: Bytes -> string, actions: seq<Action>): Option<State> {
    if actions == [] then Some(Initial())
    else
      match Run(sha256, actions[..|actions| - 1])
      case None => None
      case Some(s) => Step(sha256, s, actions[|actions| - 1])
  }

  // ---- The invariant ----

  /** The name a thread has reserved and not yet been admitted or refused for. */
  function PendingName(pc: OpenerPc): Option<string> {
    match pc
    case Reserved(name) => Some(name)
    case Created(name) => Some(name)
    case CreateFailed(name) => Some(name)
    case OpenerDone => None
  }

  ghost predicate OpenersOk(
    fields: Shared, disk: map<string, Bytes>, openers: map<ThreadId, OpenerPc>, writers: map<string, Writer>) {
    && (forall t | t in openers && PendingName(openers[t]).Some? ::
          IsActive(fields, PendingName(openers[t]).value) && PendingName(openers[t]).value !in writers)
    && (forall t, u | t in openers && u in openers && t != u && PendingName(openers[t]).Some? ::
          PendingName(openers[t]) != PendingName(openers[u]))
    && (forall t | t in openers && openers[t].Created? :: openers[t].name in disk && disk[openers[t].name] == [])
  }

  /** The bytes a writer has accounted for are the bytes in its file, up to the write in progress. */
  ghost predicate WriterOk(sha256: Bytes -> string, fields: Shared, disk: map<string, Bytes>, name: string, w: Writer) {
    && name in fields.writers
    && (!w.pc.Closed? <==> fields.writers[name] == Active)
    && w.byteLength == |w.hashed|
    && match w.pc {
         case Idle => name in disk && disk[name] == w.hashed
         case Writing(data, written) => written <= |data| && name in disk && disk[name] == w.hashed + data[..written]
         case Failing => true
         case Closing => name in disk && disk[name] == w.hashed
         case Recording(descriptor) =>
           name in disk && disk[name] == w.hashed && descriptor == Descriptor(name, sha256(w.hashed), |w.hashed|)
         case Closed => true
       }
  }

  /** The descriptors are those of exactly the finalized writers, with the length and hash of their files. */
  ghost predicate DescriptorsOk(sha256: Bytes -> string, fields: Shared, disk: map<string, Bytes>) {
    && DescriptorsFiled(fields)
    && (forall n | n in fields.descriptors ::
          n in disk && fields.descriptors[n] == Descriptor(n, sha256(disk[n]), |disk[n]|))
  }

  /** The descriptors a publisher took when it made the publication terminal are still the final ones. */
  ghost predicate Taken(fields: Shared, artifacts: seq<Descriptor>) {
    && fields.status == Terminal
    && (forall n | n in fields.order :: n in fields.descriptors)
    && artifacts == SortedDescriptors(fields)
  }

  ghost predicate PublishersOk(fields: Shared, publishers: map<ThreadId, PublisherPc>, attempts: seq<seq<Descriptor>>) {
    && |attempts| <= 1
    && StatusOk(fields)
    && (forall t | t in publishers && publishers[t].Attempting? ::
          attempts == [] && Taken(fields, publishers[t].artifacts))
    && (forall t, u | t in publishers && u in publishers && publishers[t].Attempting? && publishers[u].Attempting? ::
          t == u)
    && (|attempts| == 1 ==> Taken(fields, attempts[0]))
  }

  ghost predicate Inv(sha256: Bytes -> string, s: State) {
    && OpenersOk(s.fields, s.disk, s.openers, s.writers)
    && (forall n | n in s.writers :: WriterOk(sha256, s.fields, s.disk, n, s.writers[n]))
    && (forall n | n in s.fields.writers && s.fields.writers[n] == Finalized :: n in s.writers)
    && DescriptorsOk(sha256, s.fields, s.disk)
    && PublishersOk(s.fields, s.publishers, s.attempts)
  }

  lemma ReserveKeepsOpeners(s: State, t: ThreadId, name: string, s': State)
    requires OpenersOk(s.fields, s.disk, s.openers, s.writers) && OpenerStep(s, t, ReserveName(t, name)) == Some(s')
    requires forall n | n in s.writers :: n in s.fields.writers
    ensures OpenersOk(s'.fields, s'.disk, s'.openers, s'.writers)
  {
    assert forall u | u in s.openers :: s'.openers[u] == s.openers[u];
  }

  lemma ReserveKeepsInv(sha256: Bytes -> string, s: State, t: ThreadId, name: string, s': State)
    requires Inv(sha256, s) && OpenerStep(s, t, ReserveName(t, name)) == Some(s')
    ensures Inv(sha256, s')
  {
    assert forall n | n in s.writers :: WriterOk(sha256, s.fields, s.disk, n, s.writers[n]);
    ReserveKeepsOpeners(s, t, name, s');
    forall n | n in s'.writers ensures WriterOk(sha256, s'.fields, s'.disk, n, s'.writers[n]) {
      assert WriterOk(sha256, s.fields, s.disk, n, s.writers[n]);
    }
  }

  lemma CreateKeepsInv(sha256: Bytes -> string, s: State, t: ThreadId, ok: bool, s': State)
    requires Inv(sha256, s) && OpenerStep(s, t, CreateFile(t, ok)) == Some(s')
    ensures Inv(sha256, s')
  {
    forall n | n in s'.writers ensures WriterOk(sha256, s'.fields, s'.disk, n, s'.writers[n]) {
      assert WriterOk(sha256, s.fields, s.disk, n, s.writers[n]);
    }
  }

  /** A failed creation is still reserved, so nothing can have been published meanwhile. */
  lemma CreateFailureKeepsInv(sha256: Bytes -> string, s: State, t: ThreadId, s': State)
    requires Inv(sha256, s) && OpenerStep(s, t, ReportCreateFailure(t)) == Some(s')
    ensures Inv(sha256, s') && s.fields.status != Terminal && s'.fields.status == Poisoned
  {}

  lemma AdmitKeepsOpeners(s: State, t: ThreadId, s': State)
    requires OpenersOk(s.fields, s.disk, s.openers, s.writers) && OpenerStep(s, t, AdmitWriter(t)) == Some(s')
    ensures OpenersOk(s'.fields, s'.disk, s'.openers, s'.writers)
  {}

  lemma AdmitKeepsInv(sha256: Bytes -> string, s: State, t: ThreadId, s': State)
    requires Inv(sha256, s) && OpenerStep(s, t, AdmitWriter(t)) == Some(s')
    ensures Inv(sha256, s')
  {
    AdmitKeepsOpeners(s, t, s');
    forall n | n in s'.writers ensures WriterOk(sha256, s'.fields, s'.disk, n, s'.writers[n]) {
      assert n in s.writers ==> WriterOk(sha256, s.fields, s.disk, n, s.writers[n]);
    }
  }

  /** A step of one active writer that touches at most its own file. */
  lemma WriterMoveKeepsInv(sha256: Bytes -> string, s: State, name: string, w: Writer, disk: map<string, Bytes>)
    requires Inv(sha256, s) && name in s.writers && IsActive(s.fields, name)
    requires WriterOk(sha256, s.fields, disk, name, w)
    requires disk == s.disk || (name in s.disk && name in disk && disk == s.disk[name := disk[name]])
    ensures Inv(sha256, s.(disk := disk, writers := s.writers[name := w]))
  {
    var s' := s.(disk := disk, writers := s.writers[name := w]);
    forall n | n in s'.writers ensures WriterOk(sha256, s'.fields, s'.disk, n, s'.writers[n]) {
      assert WriterOk(sha256, s.fields, s.disk, n, s.writers[n]);
    }
  }

  /** Nothing but an active writer's own steps: starting, writing, accounting, closing. */
  lemma WriteStepKeepsInv(sha256: Bytes -> string, s: State, name: string, action: Action, s': State)
    requires Inv(sha256, s) && name in s.writers && WriterStep(sha256, s, name, action) == Some(s')
    requires !action.ReportWriterFailure? && !action.RecordFinalized?
    ensures Inv(sha256, s')
  {
    if s' != s {
      var w, w' := s.writers[name], s'.writers[name];
      assert WriterOk(sha256, s.fields, s.disk, name, w);
      WriteStepIsOk(sha256, s, name, action, s');
      WriterMoveKeepsInv(sha256, s, name, w', s'.disk);
      assert s' == s.(disk := s'.disk, writers := s.writers[name := w']);
    }
  }

  lemma WriteStepIsOk(sha256: Bytes -> string, s: State, name: string, action: Action, s': State)
    requires name in s.writers && WriterOk(sha256, s.fields, s.disk, name, s.writers[name])
    requires WriterStep(sha256, s, name, action) == Some(s') && s' != s
    requires !action.ReportWriterFailure? && !action.RecordFinalized?
    ensures name in s'.writers && IsActive(s.fields, name)
    ensures WriterOk(sha256, s.fields, s'.disk, name, s'.writers[name])
    ensures s'.disk == s.disk || (name in s.disk && name in s'.disk && s'.disk == s.disk[name := s'.disk[name]])
    ensures s' == s.(disk := s'.disk, writers := s.writers[name := s'.writers[name]])
  {
    var w := s.writers[name];
    if action.WriteSome? {
      assert w.pc.data[..w.pc.written] + w.pc.data[w.pc.written..w.pc.written + action.count]
             == w.pc.data[..w.pc.written + action.count];
      assert s'.disk[name] == w.hashed + w.pc.data[..w.pc.written + action.count];
    } else if action.FinishWrite? {
      assert w.pc.data[..w.pc.written] == w.pc.data;
    }
  }

  lemma ReportFailureKeepsInv(sha256: Bytes -> string, s: State, name: string, s': State)
    requires Inv(sha256, s) && name in s.writers
    requires WriterStep(sha256, s, name, ReportWriterFailure(name)) == Some(s')
    ensures Inv(sha256, s') && s.fields.status != Terminal && s'.fields.status == Poisoned
  {
    assert WriterOk(sha256, s.fields, s.disk, name, s.writers[name]);
    forall n | n in s'.writers ensures WriterOk(sha256, s'.fields, s'.disk, n, s'.writers[n]) {
      assert WriterOk(sha256, s.fields, s.disk, n, s.writers[n]);
    }
  }

  lemma RecordKeepsDescriptors(sha256: Bytes -> string, f: Shared, disk: map<string, Bytes>, name: string,
      d: Descriptor)
    requires DescriptorsOk(sha256, f, disk) && IsActive(f, name)
    requires name in disk && d == Descriptor(name, sha256(disk[name]), |disk[name]|)
    ensures DescriptorsOk(sha256, WriterFinalized(f, name, d).0, disk)
  {}

  lemma RecordKeepsOpeners(s: State, name: string, d: Descriptor, w: Writer)
    requires OpenersOk(s.fields, s.disk, s.openers, s.writers) && name in s.writers && IsActive(s.fields, name)
    ensures OpenersOk(WriterFinalized(s.fields, name, d).0, s.disk, s.openers, s.writers[name := w])
  {}

  lemma RecordKeepsInv(sha256: Bytes -> string, s: State, name: string, s': State)
    requires Inv(sha256, s) && name in s.writers
    requires WriterStep(sha256, s, name, RecordFinalized(name)) == Some(s')
    ensures Inv(sha256, s') && s.fields.status != Terminal
  {
    assert WriterOk(sha256, s.fields, s.disk, name, s.writers[name]);
    RecordKeepsDescriptors(sha256, s.fields, s.disk, name, s.writers[name].pc.descriptor);
    RecordKeepsOpeners(s, name, s.writers[name].pc.descriptor, s'.writers[name]);
    forall n | n in s'.writers ensures WriterOk(sha256, s'.fields, s'.disk, n, s'.writers[n]) {
      assert WriterOk(sha256, s.fields, s.disk, n, s.writers[n]);
    }
  }

  lemma PublisherStepKeepsPublishers(sha256: Bytes -> string, s: State, t: ThreadId, action: Action, s': State)
    requires DescriptorsOk(sha256, s.fields, s.disk) && PublishersOk(s.fields, s.publishers, s.attempts)
    requires PublisherStep(s, t, action) == Some(s')
    ensures PublishersOk(s'.fields, s'.publishers, s'.attempts)
    ensures s' == s.(fields := s'.fields, publishers := s'.publishers, attempts := s'.attempts)
    ensures s'.fields == s.fields || (Publishable(s.fields) && s'.fields == BeginPublish(s.fields))
  {
    match action {
      case Begin(_) =>
        if Publishable(s.fields) {
          assert SortedDescriptors(s'.fields) == SortedDescriptors(s.fields);
        }
      case _ =>
    }
  }

  lemma PublisherStepKeepsInv(sha256: Bytes -> string, s: State, t: ThreadId, action: Action, s': State)
    requires Inv(sha256, s) && PublisherStep(s, t, action) == Some(s')
    ensures Inv(sha256, s')
  {
    PublisherStepKeepsPublishers(sha256, s, t, action, s');
    forall n | n in s'.writers ensures WriterOk(sha256, s'.fields, s'.disk, n, s'.writers[n]) {
      assert WriterOk(sha256, s.fields, s.disk, n, s.writers[n]);
    }
  }

  lemma StepKeepsInv(sha256: Bytes -> string, s: State, action: Action, s': State)
    requires Inv(sha256, s) && Step(sha256, s, action) == Some(s')
    ensures Inv(sha256, s')
  {
    match action {
      case ReserveName(t, name) => ReserveKeepsInv(sha256, s, t, name, s');
      case CreateFile(t, ok) => CreateKeepsInv(sha256, s, t, ok, s');
      case ReportCreateFailure(t) => CreateFailureKeepsInv(sha256, s, t, s');
      case AdmitWriter(t) => AdmitKeepsInv(sha256, s, t, s');
      case CheckPublish(t) => PublisherStepKeepsInv(sha256, s, t, action, s');
      case AbandonPublish(t) => PublisherStepKeepsInv(sha256, s, t, action, s');
      case Begin(t) => PublisherStepKeepsInv(sha256, s, t, action, s');
      case Attempt(t) => PublisherStepKeepsInv(sha256, s, t, action, s');
      case ReportWriterFailure(name) => ReportFailureKeepsInv(sha256, s, name, s');
      case RecordFinalized(name) => RecordKeepsInv(sha256, s, name, s');
      case _ => WriteStepKeepsInv(sha256, s, action.name, action, s');
    }
  }

  lemma {:induction false} RunKeepsInv(sha256: Bytes -> string, actions: seq<Action>, s: State)
    requires Run(sha256, actions) == Some(s)
    ensures Inv(sha256, s)
  {
    if actions != [] {
      var before := actions[..|actions| - 1];
      RunKeepsInv(sha256, before, Run(sha256, before).value);
      StepKeepsInv(sha256, Run(sha256, before).value, actions[|actions| - 1], s);
    }
  }

  ghost predicate Absorbs(f: Shared, f': Shared) {
    && (f.status != Open ==> f'.status == f.status)
    && (f.status == Terminal ==> f' == f)
  }

  lemma OpenerAbsorbs(s: State, t: ThreadId, action: Action, s': State)
    requires OpenerStep(s, t, action) == Some(s')
    requires OpenersOk(s.fields, s.disk, s.openers, s.writers) && PublishersOk(s.fields, s.publishers, s.attempts)
    ensures Absorbs(s.fields, s'.fields)
  {}

  lemma WriterAbsorbs(sha256: Bytes -> string, s: State, name: string, action: Action, s': State)
    requires name in s.writers && WriterStep(sha256, s, name, action) == Some(s')
    requires PublishersOk(s.fields, s.publishers, s.attempts)
    ensures Absorbs(s.fields, s'.fields)
  {}

  lemma PublisherAbsorbs(s: State, t: ThreadId, action: Action, s': State)
    requires PublisherStep(s, t, action) == Some(s')
    ensures Absorbs(s.fields, s'.fields)
  {}

  lemma StepAbsorbs(sha256: Bytes -> string, s: State, action: Action, s': State)
    requires Inv(sha256, s) && Step(sha256, s, action) == Some(s')
    ensures Absorbs(s.fields, s'.fields)
  {
    match action {
      case ReserveName(t, _) => OpenerAbsorbs(s, t, action, s');
      case CreateFile(t, _) => OpenerAbsorbs(s, t, action, s');
      case ReportCreateFailure(t) => OpenerAbsorbs(s, t, action, s');
      case AdmitWriter(t) => OpenerAbsorbs(s, t, action, s');
      case CheckPublish(t) => PublisherAbsorbs(s, t, action, s');
      case AbandonPublish(t) => PublisherAbsorbs(s, t, action, s');
      case Begin(t) => PublisherAbsorbs(s, t, action, s');
      case Attempt(t) => PublisherAbsorbs(s, t, action, s');
      case _ => WriterAbsorbs(sha256, s, action.name, action, s');
    }
  }

  /** ABSORBING STATES: once poisoned or terminal, the publication stays exactly so in whatever follows, and a
      terminal publication's writers and descriptors never change again. */
  lemma {:induction false} StatusIsAbsorbing(sha256: Bytes -> string, actions: seq<Action>, n: nat, s: State, s': State)
    requires n <= |actions| && Run(sha256, actions[..n]) == Some(s) && Run(sha256, actions) == Some(s')
    ensures s.fields.status != Open ==> s'.fields.status == s.fields.status
    ensures s.fields.status == Terminal ==> s'.fields == s.fields
  {
    if n == |actions| {
      assert actions[..n] == actions;
    } else {
      var before := actions[..|actions| - 1];
      var middle := Run(sha256, before).value;
      assert before[..n] == actions[..n];
      StatusIsAbsorbing(sha256, before, n, s, middle);
      RunKeepsInv(sha256, before, middle);
      StepAbsorbs(sha256, middle, actions[|actions| - 1], s');
    }
  }

  /** The manifest model's own check of its descriptors: unique names, in sorted order. */
  predicate ManifestAccepts(artifacts: seq<Descriptor>) {
    var names := seq(|artifacts|, i requires 0 <= i < |artifacts| => artifacts[i].name);
    Unique(names) && names == Sorted(names)
  }

  lemma SortedDescriptorsAreAccepted(sha256: Bytes -> string, f: Shared, disk: map<string, Bytes>)
    requires DescriptorsOk(sha256, f, disk)
    ensures ManifestAccepts(SortedDescriptors(f))
    ensures forall i, j | 0 <= i < j < |SortedDescriptors(f)| ::
              Before(SortedDescriptors(f)[i].name, SortedDescriptors(f)[j].name)
    ensures forall i | 0 <= i < |SortedDescriptors(f)| ::
              var d := SortedDescriptors(f)[i];
              d.name in f.descriptors && d == f.descriptors[d.name]
    ensures forall n | n in f.descriptors :: f.descriptors[n] in SortedDescriptors(f)
  {
    var artifacts := SortedDescriptors(f);
    SortedDescriptorsCarryNames(f);
    IncreasingIsSorted(Sorted(f.order));
    assert seq(|artifacts|, i requires 0 <= i < |artifacts| => artifacts[i].name) == Sorted(f.order);
  }

  /** BUNDLE PUBLICATION: in every interleaving at most one manifest attempt is made. When it is made the
      publication is terminal, every writer ever admitted is finalized, and the attempted descriptors are
      exactly those of the finalized writers, in strictly increasing name order, each with the length and
      hash of the bytes in its file; so the manifest's ordering check accepts them. */
  lemma AttemptIsExact(sha256: Bytes -> string, actions: seq<Action>, s: State)
    requires Run(sha256, actions) == Some(s)
    ensures |s.attempts| <= 1
    ensures s.fields.status == Terminal ==> forall n | n in s.fields.writers :: s.fields.writers[n] == Finalized
    ensures |s.attempts| == 1 ==>
              var artifacts := s.attempts[0];
              && s.fields.status == Terminal
              && ManifestAccepts(artifacts)
              && (forall i, j | 0 <= i < j < |artifacts| :: Before(artifacts[i].name, artifacts[j].name))
              && (forall n | n in s.fields.writers ::
                    n in s.disk && Descriptor(n, sha256(s.disk[n]), |s.disk[n]|) in artifacts)
              && (forall d | d in artifacts :: d.name in s.fields.writers && s.fields.writers[d.name] == Finalized)
  {
    RunKeepsInv(sha256, actions, s);
    if |s.attempts| == 1 {
      SortedDescriptorsAreAccepted(sha256, s.fields, s.disk);
    }
  }

  /** Two publishers never hold the right to attempt, and whoever holds it will be accepted by the manifest. */
  lemma OneAttemptAtATime(sha256: Bytes -> string, actions: seq<Action>, s: State, t: ThreadId, u: ThreadId)
    requires Run(sha256, actions) == Some(s)
    requires t in s.publishers && s.publishers[t].Attempting? && u in s.publishers && s.publishers[u].Attempting?
    ensures t == u && s.attempts == [] && ManifestAccepts(s.publishers[t].artifacts)
  {
    RunKeepsInv(sha256, actions, s);
    SortedDescriptorsAreAccepted(sha256, s.fields, s.disk);
  }

  /** A step changes a file only if it creates it or its writer is in the middle of a write. */
  lemma FileChanges(sha256: Bytes -> string, s: State, action: Action, s': State, name: string)
    requires Step(sha256, s, action) == Some(s') && name in s.disk
    ensures name in s'.disk
    ensures s'.disk[name] != s.disk[name] ==> name in s.writers && s.writers[name].pc.Writing?
  {}

  ghost predicate KeepsFinalized(f: Shared, f': Shared, name: string) {
    && name in f'.writers && f'.writers[name] == Finalized
    && name in f.descriptors && name in f'.descriptors && f'.descriptors[name] == f.descriptors[name]
  }

  lemma OpenerKeepsFinalized(s: State, t: ThreadId, action: Action, s': State, name: string)
    requires OpenersOk(s.fields, s.disk, s.openers, s.writers) && OpenerStep(s, t, action) == Some(s')
    requires name in s.fields.writers && s.fields.writers[name] == Finalized && name in s.fields.descriptors
    ensures KeepsFinalized(s.fields, s'.fields, name)
  {}

  lemma WriterKeepsFinalized(sha256: Bytes -> string, s: State, writer: string, action: Action, s': State, name: string)
    requires writer in s.writers && WriterStep(sha256, s, writer, action) == Some(s')
    requires name in s.fields.writers && s.fields.writers[name] == Finalized && name in s.fields.descriptors
    ensures KeepsFinalized(s.fields, s'.fields, name)
  {}

  lemma PublisherKeepsFinalized(s: State, t: ThreadId, action: Action, s': State, name: string)
    requires PublisherStep(s, t, action) == Some(s')
    requires name in s.fields.writers && s.fields.writers[name] == Finalized && name in s.fields.descriptors
    ensures KeepsFinalized(s.fields, s'.fields, name)
  {}

  lemma FinalizedStays(sha256: Bytes -> string, s: State, action: Action, s': State, name: string)
    requires OpenersOk(s.fields, s.disk, s.openers, s.writers) && Step(sha256, s, action) == Some(s')
    requires name in s.fields.writers && s.fields.writers[name] == Finalized && name in s.fields.descriptors
    ensures KeepsFinalized(s.fields, s'.fields, name)
  {
    match action {
      case ReserveName(t, _) => OpenerKeepsFinalized(s, t, action, s', name);
      case CreateFile(t, _) => OpenerKeepsFinalized(s, t, action, s', name);
      case ReportCreateFailure(t) => OpenerKeepsFinalized(s, t, action, s', name);
      case AdmitWriter(t) => OpenerKeepsFinalized(s, t, action, s', name);
      case CheckPublish(t) => PublisherKeepsFinalized(s, t, action, s', name);
      case AbandonPublish(t) => PublisherKeepsFinalized(s, t, action, s', name);
      case Begin(t) => PublisherKeepsFinalized(s, t, action, s', name);
      case Attempt(t) => PublisherKeepsFinalized(s, t, action, s', name);
      case _ => WriterKeepsFinalized(sha256, s, action.name, action, s', name);
    }
  }

  /** A finalized artifact: its file is there, and its descriptor describes it. */
  ghost predicate FinalizedFile(sha256: Bytes -> string, s: State, name: string, bytes: Bytes) {
    && name in s.fields.writers && s.fields.writers[name] == Finalized
    && name in s.disk && s.disk[name] == bytes
    && name in s.fields.descriptors && s.fields.descriptors[name] == Descriptor(name, sha256(bytes), |bytes|)
  }

  lemma FinalizedFileStep(sha256: Bytes -> string, s: State, action: Action, s': State, name: string)
    requires Inv(sha256, s) && Step(sha256, s, action) == Some(s')
    requires name in s.fields.writers && s.fields.writers[name] == Finalized
    ensures name in s.disk && FinalizedFile(sha256, s, name, s.disk[name])
            && FinalizedFile(sha256, s', name, s.disk[name])
  {
    assert WriterOk(sha256, s.fields, s.disk, name, s.writers[name]);
    FileChanges(sha256, s, action, s', name);
    FinalizedStays(sha256, s, action, s', name);
  }

  /** FINALIZED FILES STAY: a finalized artifact's file and descriptor never change again, whatever other threads do
      in whatever follows, and the descriptor has the length and hash of the file. */
  lemma {:induction false} FinalizedFilesStay(sha256: Bytes -> string, actions: seq<Action>, n: nat,
                                              s: State, s': State, name: string)
    requires n <= |actions| && Run(sha256, actions[..n]) == Some(s) && Run(sha256, actions) == Some(s')
    requires name in s.fields.writers && s.fields.writers[name] == Finalized
    ensures name in s.disk
    ensures FinalizedFile(sha256, s, name, s.disk[name]) && FinalizedFile(sha256, s', name, s.disk[name])
  {
    if n == |actions| {
      assert actions[..n] == actions;
      RunKeepsInv(sha256, actions, s);
    } else {
      var before := actions[..|actions| - 1];
      var middle := Run(sha256, before).value;
      assert before[..n] == actions[..n];
      FinalizedFilesStay(sha256, before, n, s, middle, name);
      RunKeepsInv(sha256, before, middle);
      FinalizedFileStep(sha256, middle, actions[|actions| - 1], s', name);
    }
  }
}
