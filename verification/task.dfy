/** Task values, their refresh from engine snapshots, and the list filters. */
module Tasks {
  import opened Prelude

  type Gid = U64
  type ByteCount = U64
  type ByteRate = U64

  datatype DownloadStatus =
    | Active | Seeding | Waiting | Paused | Complete | Error | Removed | Verifying | Unknown
  {
    predicate IsTerminal() {
      this in {Complete, Error, Removed}
    }
  }

  datatype TaskNameState = Resolving | Resolved | Custom

  datatype TaskSourceKind = UnknownSource | DirectUri | Magnet | BitTorrent | Metalink

  datatype TaskError = TaskError(code: Option<U32>, message: string)

  datatype TaskMetadata = TaskMetadata(
    directory: Option<string>,
    primaryUri: Option<string>,
    infoHash: Option<string>,
    fileCount: U32,
    followedBy: seq<Gid>,
    belongsTo: Option<Gid>,
    sourceKind: TaskSourceKind)

  /** Task values as an adapter reports them. */
  datatype TaskSnapshot = TaskSnapshot(
    gid: Gid,
    status: DownloadStatus,
    displayName: string,
    nameState: TaskNameState,
    totalLength: ByteCount,
    completedLength: ByteCount,
    uploadLength: ByteCount,
    downloadSpeed: ByteRate,
    uploadSpeed: ByteRate,
    connections: U32,
    error: Option<TaskError>,
    metadata: TaskMetadata)

  /** Application-owned task state with a semantic revision. */
  datatype DownloadTask = DownloadTask(
    gid: Gid,
    status: DownloadStatus,
    displayName: string,
    nameState: TaskNameState,
    totalLength: ByteCount,
    completedLength: ByteCount,
    uploadLength: ByteCount,
    downloadSpeed: ByteRate,
    uploadSpeed: ByteRate,
    connections: U32,
    error: Option<TaskError>,
    metadata: TaskMetadata,
    revision: U64)
  {
    static function FromSnapshot(s: TaskSnapshot): DownloadTask {
      DownloadTask(s.gid, s.status, s.displayName, s.nameState, s.totalLength, s.completedLength,
                   s.uploadLength, s.downloadSpeed, s.uploadSpeed, s.connections, s.error, s.metadata, 1)
    }
  }

  datatype TaskField =
    | Status | DisplayName | TotalLength | CompletedLength | UploadLength | DownloadSpeed
    | UploadSpeed | Connections | ErrorField | Metadata | NameState

  datatype TaskUpdateError = GidMismatch(expected: Gid, received: Gid)

  /** The two task values disagree on one reported field; gid and revision are not fields. */
  predicate Differs(a: DownloadTask, b: DownloadTask, f: TaskField) {
    match f
    case Status => a.status != b.status
    case DisplayName => a.displayName != b.displayName
    case TotalLength => a.totalLength != b.totalLength
    case CompletedLength => a.completedLength != b.completedLength
    case UploadLength => a.uploadLength != b.uploadLength
    case DownloadSpeed => a.downloadSpeed != b.downloadSpeed
    case UploadSpeed => a.uploadSpeed != b.uploadSpeed
    case Connections => a.connections != b.connections
    case ErrorField => a.error != b.error
    case Metadata => a.metadata != b.metadata
    case NameState => a.nameState != b.nameState
  }

  function ChangedFields(before: DownloadTask, after: DownloadTask): set<TaskField> {
    set f: TaskField | Differs(before, after, f)
  }

  function Known<T>(current: Option<T>, incoming: Option<T>): Option<T> {
    if incoming.Some? then incoming else current
  }

  /** Sparse refreshes keep what is already known. */
  function MergeMetadata(current: TaskMetadata, incoming: TaskMetadata): TaskMetadata {
    TaskMetadata(
      Known(current.directory, incoming.directory),
      Known(current.primaryUri, incoming.primaryUri),
      Known(current.infoHash, incoming.infoHash),
      if incoming.fileCount == 0 then current.fileCount else incoming.fileCount,
      if incoming.followedBy == [] then current.followedBy else incoming.followedBy,
      Known(current.belongsTo, incoming.belongsTo),
      if incoming.sourceKind == UnknownSource then current.sourceKind else incoming.sourceKind)
  }

  function WithName(t: DownloadTask, s: TaskSnapshot): DownloadTask {
    var custom := t.nameState == Custom;
    t.(status := s.status,
       displayName := if custom then t.displayName else s.displayName,
       nameState := if custom then Custom else s.nameState)
  }

  function WithTransfer(t: DownloadTask, s: TaskSnapshot): DownloadTask {
    t.(totalLength := s.totalLength, completedLength := s.completedLength, uploadLength := s.uploadLength,
       downloadSpeed := s.downloadSpeed, uploadSpeed := s.uploadSpeed, connections := s.connections)
  }

  function WithDetails(t: DownloadTask, s: TaskSnapshot): DownloadTask {
    t.(error := s.error, metadata := MergeMetadata(t.metadata, s.metadata))
  }

  /** `after` keeps the revision of `before` unless some field moved. */
  function Revised(before: DownloadTask, after: DownloadTask): DownloadTask {
    after.(revision := if ChangedFields(before, after) == {} then before.revision else SatInc(before.revision))
  }

  /** A task after one engine refresh: a user's name stays, known metadata stays, the rest is replaced. */
  function Refreshed(t: DownloadTask, s: TaskSnapshot): DownloadTask {
    Revised(t, WithDetails(WithTransfer(WithName(t, s), s), s))
  }

  function Renamed(t: DownloadTask, name: string): DownloadTask {
    Revised(t, t.(displayName := name, nameState := Custom))
  }

  // ----- The in-place algorithms. `&mut self` is an in-parameter and an out-parameter here.

  method UpdateField<T(==)>(current: T, incoming: T, field: TaskField, changed: set<TaskField>)
    returns (value: T, out: set<TaskField>)
    ensures value == incoming
    ensures out == if current == incoming then changed else changed + {field}
  {
    value, out := current, changed;
    if current != incoming {
      value := incoming;
      out := out + {field};
    }
  }

  lemma RevisionIsNoField(t: DownloadTask, a: DownloadTask, b: DownloadTask)
    requires b == a.(revision := b.revision)
    ensures ChangedFields(t, a) == ChangedFields(t, b)
  {
    assert forall f: TaskField :: Differs(t, a, f) <==> Differs(t, b, f);
  }

  /** The three stages touch different fields, so together they report the fields of the whole update. */
  lemma StagesAddUp(t: DownloadTask, s: TaskSnapshot)
    ensures var (b, c) := (WithName(t, s), WithTransfer(WithName(t, s), s)); var d := WithDetails(c, s);
            ChangedFields(t, d) == ChangedFields(t, b) + ChangedFields(b, c) + ChangedFields(c, d)
  {
    var b := WithName(t, s);
    var c := WithTransfer(b, s);
    var d := WithDetails(c, s);
    forall f: TaskField
      ensures Differs(t, d, f) <==> Differs(t, b, f) || Differs(b, c, f) || Differs(c, d, f)
    {
      match f {
        case Status => case DisplayName => case TotalLength => case CompletedLength =>
        case UploadLength => case DownloadSpeed => case UploadSpeed => case Connections =>
        case ErrorField => case Metadata => case NameState =>
      }
    }
  }

  method UpdateStatusAndName(self: DownloadTask, snapshot: TaskSnapshot, before: set<TaskField>)
    returns (task: DownloadTask, changed: set<TaskField>)
    ensures task == WithName(self, snapshot)
    ensures changed == before + ChangedFields(self, task)
  {
    task, changed := self, before;
    var status, name, nameState := task.status, task.displayName, task.nameState;
    status, changed := UpdateField(status, snapshot.status, Status, changed);
    if nameState != Custom {
      name, changed := UpdateField(name, snapshot.displayName, DisplayName, changed);
      nameState, changed := UpdateField(nameState, snapshot.nameState, NameState, changed);
    }
    task := task.(status := status, displayName := name, nameState := nameState);
  }

  method UpdateTransfer(self: DownloadTask, snapshot: TaskSnapshot, before: set<TaskField>)
    returns (task: DownloadTask, changed: set<TaskField>)
    ensures task == WithTransfer(self, snapshot)
    ensures changed == before + ChangedFields(self, task)
  {
    task, changed := self, before;
    var total, completed, upload := task.totalLength, task.completedLength, task.uploadLength;
    total, changed := UpdateField(total, snapshot.totalLength, TotalLength, changed);
    completed, changed := UpdateField(completed, snapshot.completedLength, CompletedLength, changed);
    upload, changed := UpdateField(upload, snapshot.uploadLength, UploadLength, changed);
    var down, up, connections := task.downloadSpeed, task.uploadSpeed, task.connections;
    down, changed := UpdateField(down, snapshot.downloadSpeed, DownloadSpeed, changed);
    up, changed := UpdateField(up, snapshot.uploadSpeed, UploadSpeed, changed);
    connections, changed := UpdateField(connections, snapshot.connections, Connections, changed);
    task := task.(totalLength := total, completedLength := completed, uploadLength := upload,
                  downloadSpeed := down, uploadSpeed := up, connections := connections);
  }

  method UpdateDetails(self: DownloadTask, snapshot: TaskSnapshot, before: set<TaskField>)
    returns (task: DownloadTask, changed: set<TaskField>)
    ensures task == WithDetails(self, snapshot)
    ensures changed == before + ChangedFields(self, task)
  {
    task, changed := self, before;
    var error, metadata := task.error, MergeMetadata(task.metadata, snapshot.metadata);
    error, changed := UpdateField(error, snapshot.error, ErrorField, changed);
    metadata, changed := UpdateField(task.metadata, metadata, Metadata, changed);
    task := task.(error := error, metadata := metadata);
  }

  method ApplySnapshot(self: DownloadTask, snapshot: TaskSnapshot)
    returns (task: DownloadTask, r: Result<set<TaskField>, TaskUpdateError>)
    ensures self.gid != snapshot.gid ==>
              task == self && r == Failure(GidMismatch(self.gid, snapshot.gid))
    ensures self.gid == snapshot.gid ==>
              task == Refreshed(self, snapshot) && r == Success(ChangedFields(self, task))
  {
    task := self;
    if self.gid != snapshot.gid {
      return task, Failure(GidMismatch(self.gid, snapshot.gid));
    }
    var changed: set<TaskField> := {};
    task, changed := UpdateStatusAndName(task, snapshot, changed);
    task, changed := UpdateTransfer(task, snapshot, changed);
    task, changed := UpdateDetails(task, snapshot, changed);
    ghost var full := task;
    StagesAddUp(self, snapshot);
    assert changed == ChangedFields(self, full);
    if changed != {} {
      task := task.(revision := SatInc(task.revision));
    }
    RevisionIsNoField(self, full, task);
    assert changed == ChangedFields(self, task);
    r := Success(changed);
  }

  method SetCustomOutputName(self: DownloadTask, name: string)
    returns (task: DownloadTask, changed: set<TaskField>)
    ensures task == Renamed(self, name)
    ensures changed == ChangedFields(self, task)
  {
    changed := {};
    var displayName, nameState := self.displayName, self.nameState;
    displayName, changed := UpdateField(displayName, name, DisplayName, changed);
    nameState, changed := UpdateField(nameState, Custom, NameState, changed);
    task := self.(displayName := displayName, nameState := nameState);
    assert changed == ChangedFields(self, task);
    if changed != {} {
      task := task.(revision := SatInc(task.revision));
    }
    assert changed == ChangedFields(self, task);
  }

  // ----- What a refresh promises.

  /** Reporting no field means nothing moved, and the other way round. */
  lemma UnchangedIffNoField(t: DownloadTask, after: DownloadTask)
    requires after.gid == t.gid
    ensures ChangedFields(t, Revised(t, after)) == {} <==> Revised(t, after) == t
  {
    var r := Revised(t, after);
    assert ChangedFields(t, r) == ChangedFields(t, after);
    if ChangedFields(t, r) == {} {
      assert forall f: TaskField :: f !in ChangedFields(t, r) ==> !Differs(t, r, f);
      assert !Differs(t, r, Status) && !Differs(t, r, DisplayName) && !Differs(t, r, TotalLength);
      assert !Differs(t, r, CompletedLength) && !Differs(t, r, UploadLength) && !Differs(t, r, DownloadSpeed);
      assert !Differs(t, r, UploadSpeed) && !Differs(t, r, Connections) && !Differs(t, r, ErrorField);
      assert !Differs(t, r, Metadata) && !Differs(t, r, NameState);
    }
  }

  lemma MergeIdempotent(a: TaskMetadata, b: TaskMetadata)
    ensures MergeMetadata(MergeMetadata(a, b), b) == MergeMetadata(a, b)
  {
  }

  /** Refreshing twice with one snapshot reports nothing the second time. */
  lemma RefreshedIdempotent(t: DownloadTask, s: TaskSnapshot)
    ensures Refreshed(Refreshed(t, s), s) == Refreshed(t, s)
  {
    var once := Refreshed(t, s);
    MergeIdempotent(t.metadata, s.metadata);
    assert ChangedFields(once, Refreshed(once, s)) == {};
    UnchangedIffNoField(once, Refreshed(once, s));
  }

  lemma MergeAssociative(a: TaskMetadata, b: TaskMetadata, c: TaskMetadata)
    ensures MergeMetadata(MergeMetadata(a, b), c) == MergeMetadata(a, MergeMetadata(b, c))
  {
  }

  /** A task after a whole history of refreshes. */
  function RefreshedBy(t: DownloadTask, history: seq<TaskSnapshot>): DownloadTask {
    if history == [] then t
    else Refreshed(RefreshedBy(t, history[..|history| - 1]), history[|history| - 1])
  }

  /** The latest value a history of reports knows, or the one it started from. */
  function LastKnown<T(==)>(start: T, reports: seq<T>, unknown: T): T {
    if reports == [] then start
    else if reports[|reports| - 1] != unknown then reports[|reports| - 1]
    else LastKnown(start, reports[..|reports| - 1], unknown)
  }

  /** One metadata column of a history. */
  function Column<T>(history: seq<TaskSnapshot>, f: TaskMetadata -> T): (r: seq<T>)
    ensures |r| == |history|
    ensures forall i :: 0 <= i < |r| ==> r[i] == f(history[i].metadata)
  {
    seq(|history|, i requires 0 <= i < |history| => f(history[i].metadata))
  }

  lemma ColumnInit<T>(history: seq<TaskSnapshot>, f: TaskMetadata -> T)
    requires history != []
    ensures Column(history, f)[..|history| - 1] == Column(history[..|history| - 1], f)
    ensures Column(history, f)[|history| - 1] == f(history[|history| - 1].metadata)
  {
  }

  /** Every metadata field holds its last known value, however sparse the refreshes were. */
  lemma {:induction false} MetadataIsLastKnown(t: DownloadTask, history: seq<TaskSnapshot>)
    ensures RefreshedBy(t, history).metadata == TaskMetadata(
      LastKnown(t.metadata.directory, Column(history, (m: TaskMetadata) => m.directory), None),
      LastKnown(t.metadata.primaryUri, Column(history, (m: TaskMetadata) => m.primaryUri), None),
      LastKnown(t.metadata.infoHash, Column(history, (m: TaskMetadata) => m.infoHash), None),
      LastKnown(t.metadata.fileCount, Column(history, (m: TaskMetadata) => m.fileCount), 0),
      LastKnown(t.metadata.followedBy, Column(history, (m: TaskMetadata) => m.followedBy), []),
      LastKnown(t.metadata.belongsTo, Column(history, (m: TaskMetadata) => m.belongsTo), None),
      LastKnown(t.metadata.sourceKind, Column(history, (m: TaskMetadata) => m.sourceKind), UnknownSource))
  {
    if history != [] {
      var init := history[..|history| - 1];
      MetadataIsLastKnown(t, init);
      ColumnInit(history, (m: TaskMetadata) => m.directory);
      ColumnInit(history, (m: TaskMetadata) => m.primaryUri);
      ColumnInit(history, (m: TaskMetadata) => m.infoHash);
      ColumnInit(history, (m: TaskMetadata) => m.fileCount);
      ColumnInit(history, (m: TaskMetadata) => m.followedBy);
      ColumnInit(history, (m: TaskMetadata) => m.belongsTo);
      ColumnInit(history, (m: TaskMetadata) => m.sourceKind);
    }
  }

  /** The task shows the status, sizes, speeds and error of a snapshot. */
  predicate ShowsTransfer(t: DownloadTask, s: TaskSnapshot) {
    && t.status == s.status && t.error == s.error && t.connections == s.connections
    && t.totalLength == s.totalLength && t.completedLength == s.completedLength && t.uploadLength == s.uploadLength
    && t.downloadSpeed == s.downloadSpeed && t.uploadSpeed == s.uploadSpeed
  }

  /** A user-chosen name survives every later refresh; the values in motion are those of the last one. */
  lemma {:induction false} CustomNameSurvives(t: DownloadTask, name: string, history: seq<TaskSnapshot>)
    ensures var r := RefreshedBy(Renamed(t, name), history);
            && r.displayName == name && r.nameState == Custom && r.gid == t.gid
            && (history != [] ==> ShowsTransfer(r, history[|history| - 1]))
  {
    if history != [] {
      CustomNameSurvives(t, name, history[..|history| - 1]);
    }
  }

  datatype DownloadFilter = AllTasks | ActiveTasks | WaitingTasks | PausedTasks | CompletedTasks | FailedTasks
  {
    predicate Matches(status: DownloadStatus) {
      match this
      case AllTasks => true
      case ActiveTasks => status in {Active, Seeding, Verifying}
      case WaitingTasks => status == Waiting
      case PausedTasks => status == Paused
      case CompletedTasks => status == Complete
      case FailedTasks => status == Error
    }
  }

  const ALL_FILTERS: set<DownloadFilter> := {AllTasks, ActiveTasks, WaitingTasks, PausedTasks, CompletedTasks,
                                             FailedTasks}

  /** Every status has one filter of its own beside the one that shows all, except the two that have none. */
  lemma FiltersOf(status: DownloadStatus)
    ensures (set f | f in ALL_FILTERS && f.Matches(status)) ==
            {AllTasks} + (if status == Active || status == Seeding || status == Verifying then {ActiveTasks}
                          else if status == Waiting then {WaitingTasks}
                          else if status == Paused then {PausedTasks}
                          else if status == Complete then {CompletedTasks}
                          else if status == Error then {FailedTasks}
                          else {})
  {
  }
}
