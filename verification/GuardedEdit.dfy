/**
 Guarded edits and writes of one remote file (packages/fs-ssh/src/fs-ssh.ts):
 stat, read, stage, and publish through a script that re-checks the freshness
 elements, with outside writers acting between any two steps and the calls on
 the file serialized by the keyed mutex.
 */
module GuardedEdit {
  import opened Wrappers
  import opened Base64
  import opened Text
  import Mutex

  // ---------------------------------------------------------------- files and freshness

  /** The low twelve mode bits: permissions, and above them set-id and sticky. */
  type ModeBits = m: nat | m < 0x1000

  datatype Entry =
    | File(content: seq<Byte>, mtime: int, mode: ModeBits)
    | Directory(bytes: nat, mtime: int, mode: ModeBits)

  type Disk = Option<Entry>

  /** What a version token is made of; tokens are equal exactly when these are. */
  datatype Elements = Elements(size: nat, mtime: int, bits: nat)

  const PERMISSION_BITS := 0x200
  const STAGED_MODE := 0x180

  function SizeOf(e: Entry): nat {
    if e.File? then |e.content| else e.bytes
  }

  /** The elements the client derives from attributes: only the nine permission bits of the mode. */
  function ElementsOf(e: Entry): Elements {
    Elements(SizeOf(e), e.mtime, e.mode % PERMISSION_BITS)
  }

  /** What stat prints on the remote side: set-id and sticky bits included. */
  function Printed(e: Entry): Elements {
    Elements(SizeOf(e), e.mtime, e.mode)
  }

  predicate SpecialBits(e: Entry) {
    e.mode >= PERMISSION_BITS
  }

  /** Two files look the same to a guard exactly when size, time and the low nine mode bits agree, and print the same when all twelve do. */
  lemma SameElementsIff(a: Entry, b: Entry)
    requires a.File? && b.File?
    ensures ElementsOf(a) == ElementsOf(b) <==> |a.content| == |b.content| && a.mtime == b.mtime && (a.mode - b.mode) % 0x200 == 0
    ensures Printed(a) == Printed(b) <==> |a.content| == |b.content| && a.mtime == b.mtime && a.mode == b.mode
  {
  }

  lemma PrintedIsElements(e: Entry)
    ensures Printed(e) == ElementsOf(e) <==> !SpecialBits(e)
  {
  }

  // ---------------------------------------------------------------- the publish script

  datatype Guard = Force | CreateIfAbsent | ReplaceIfVersion(version: Elements)

  /** How the final rename goes: it fails, or works (and changes a directory it lands in). */
  datatype Move = Fails | Works(bytes: nat, mtime: int)

  datatype Published = Published(code: nat, disk: Disk)

  const EXISTS := 3
  const CHANGED := 4

  function PublishScript(guard: Guard, disk: Disk, staged: Entry, move: Move): Published {
    if guard.CreateIfAbsent? && disk.Some? then Published(EXISTS, disk)
    else if guard.ReplaceIfVersion? && (disk.None? || Printed(disk.value) != guard.version) then Published(CHANGED, disk)
    else if move.Fails? then Published(1, disk)
    else if disk.Some? && disk.value.Directory? then Published(0, Some(Directory(move.bytes, move.mtime, disk.value.mode)))
    else Published(0, Some(staged))
  }

  /** Every non-zero exit leaves the target as it was; exits 3 and 4 say which guard stopped it. */
  lemma ExitCodes(guard: Guard, disk: Disk, staged: Entry, move: Move)
    requires guard.ReplaceIfVersion? ==> guard.version.bits < PERMISSION_BITS
    ensures var p := PublishScript(guard, disk, staged, move);
            && (p.code != 0 ==> p.disk == disk)
            && (p.code == 3 <==> guard.CreateIfAbsent? && disk.Some?)
            && (p.code == 4 <==>
                  (guard.ReplaceIfVersion? && !(disk.Some? && ElementsOf(disk.value) == guard.version && !SpecialBits(disk.value))))
            && (p.code == 0 <==> p.code != 3 && p.code != 4 && move.Works?)
  {
    if disk.Some? { PrintedIsElements(disk.value); }
  }

  /** Publishing over a file nobody changed is refused exactly when it has a set-id or sticky bit. */
  lemma UnchangedFilePublishesIff(e: Entry, staged: Entry, move: Move)
    ensures PublishScript(ReplaceIfVersion(ElementsOf(e)), Some(e), staged, move).code == CHANGED <==> SpecialBits(e)
  {
    PrintedIsElements(e);
  }

  /**
   A directory is never replaced: without a guard, or under its own elements, the
   script exits 0 and the file has landed inside it.
   */
  lemma PublishOverDirectory(guard: Guard, d: Entry, staged: Entry, move: Move)
    requires d.Directory? && staged.File?
    ensures var p := PublishScript(guard, Some(d), staged, move);
            && p.disk.Some? && p.disk.value.Directory?
            && (p.code == 0 <==> move.Works? && (guard.Force? || guard == ReplaceIfVersion(Printed(d))))
  {
  }

  // ---------------------------------------------------------------- calls

  datatype Utf8 = Utf8(decode: seq<Byte> -> string, encode: string -> seq<Byte>)

  datatype Request =
    | Edit(old_: string, new_: string, all: bool, expected: Option<Elements>)
    | Write(content: string, guard: Guard)

  datatype Failure =
    | NotFound | NotRegular | StaleVersion | NotText | EditNotFound | AmbiguousEdit | NotObserved
    | PermissionDenied | NotDirectory | IoError | Aborted

  /** What a failing transport call is mapped to. */
  predicate Mapped(f: Failure) {
    f in {Failure.NotFound, PermissionDenied, NotDirectory, IoError}
  }

  /** Refusals by a check on what was read, or by exit 3 or 4 of the script. */
  predicate Refusal(f: Failure) {
    f in {NotRegular, StaleVersion, NotText, EditNotFound, AmbiguousEdit, NotObserved}
  }

  /**
   Where a call is. `at` is the revision of the target at the call's stat, for
   the proofs only: the code knows `seen` and what it read. After a script that
   exits 0 the target is only left to be stat'ed once more.
   */
  datatype Phase =
    | Called
    | Reading(seen: Elements, got: seq<Byte>, at: nat)
    | Staged(publish: Guard, text: string, at: nat)
    | Renamed
    | Done(failure: Option<Failure>)

  datatype Op = Op(request: Request, phase: Phase)

  /** A publish that changed the target: by which call, from what, to what. */
  datatype Effect = Effect(op: nat, before: Disk, after: Disk)

  datatype World = World(disk: Disk, revision: nat, lock: Mutex.State, ops: seq<Op>, effects: seq<Effect>)

  const KEY: Mutex.Key := "target"

  function Initially(disk: Disk): World {
    World(disk, 0, Mutex.IDLE, [], [])
  }

  datatype Step =
    | Outside(disk: Disk)
    | Call(request: Request)
    | Begin(op: nat)
    | Stat(op: nat)
    | Chunk(op: nat, bytes: seq<Byte>)
    | EndOfFile(op: nat)
    | Fail(op: nat, failure: Failure)
    | Publish(op: nat, mtime: int, move: Move, lost: Option<Failure>)
    | FinalStat(op: nat, failed: Option<Failure>)
    | Settle(op: nat)
    | Cleanup(op: nat)

  /** A read that no change overlapped yields the file's bytes; otherwise it may yield anything. */
  predicate HonestChunk(disk: Disk, got: seq<Byte>, bytes: seq<Byte>) {
    disk.Some? && disk.value.File? && got + bytes <= disk.value.content
  }

  /** The one thing asked of outside writers: no change brings back the elements a call in flight has seen. */
  predicate Recurs(op: Op, disk: Disk) {
    disk.Some? &&
    match op.phase
    case Reading(seen, _, _) => ElementsOf(disk.value) == seen
    case Staged(ReplaceIfVersion(seen), _, _) => ElementsOf(disk.value) == seen
    case _ => false
  }

  predicate Holds(w: World, n: nat) {
    n < |w.ops| && n < |w.lock.tasks| && w.lock.tasks[n].phase.Running?
  }

  /** The call's publish lies behind it. */
  predicate Over(op: Op) {
    op.phase.Renamed? || op.phase.Done?
  }

  predicate Enabled(w: World, step: Step) {
    match step
    case Outside(disk) => forall op <- w.ops :: !Recurs(op, disk)
    case Call(_) => true
    case Begin(n) => Mutex.Startable(w.lock, n)
    case Stat(n) => Holds(w, n) && w.ops[n].phase.Called?
    case Chunk(n, bytes) =>
      && Holds(w, n) && w.ops[n].phase.Reading?
      && (w.ops[n].phase.at == w.revision ==> HonestChunk(w.disk, w.ops[n].phase.got, bytes))
    case EndOfFile(n) =>
      && Holds(w, n) && w.ops[n].phase.Reading?
      && (w.ops[n].phase.at == w.revision ==> w.disk.Some? && w.disk.value.File? && w.ops[n].phase.got == w.disk.value.content)
    case Fail(n, f) => Holds(w, n) && !Over(w.ops[n]) && (Mapped(f) || f.Aborted?)
    case Publish(n, _, _, lost) => Holds(w, n) && w.ops[n].phase.Staged? && (lost.Some? ==> Mapped(lost.value))
    case FinalStat(n, failed) =>
      && Holds(w, n) && w.ops[n].phase.Renamed?
      && (if failed.None? then w.disk.Some? else Mapped(failed.value) && (failed == Some(Failure.NotFound) ==> w.disk.None?))
    case Settle(n) => Holds(w, n) && w.ops[n].phase.Done?
    case Cleanup(n) => n < |w.lock.tasks| && w.lock.tasks[n].phase.Settled?
  }

  /** The checks on the attributes, before anything is read. */
  function AfterStat(request: Request, disk: Disk, at: nat): Phase {
    match request
    case Edit(old_, _, _, expected) =>
      if old_ == "" then Done(Some(EditNotFound))
      else if disk.None? then Done(Some(Failure.NotFound))
      else if disk.value.Directory? then Done(Some(NotRegular))
      else if expected.Some? && ElementsOf(disk.value) != expected.value then Done(Some(StaleVersion))
      else Reading(ElementsOf(disk.value), [], at)
    case Write(content, guard) =>
      if guard.CreateIfAbsent? && disk.Some? then Done(Some(NotObserved))
      else if guard.ReplaceIfVersion? && (disk.None? || ElementsOf(disk.value) != guard.version) then Done(Some(StaleVersion))
      else Staged(guard, content, at)
  }

  /** The edit computed from the bytes that were read. */
  function AfterRead(utf8: Utf8, request: Request, seen: Elements, got: seq<Byte>, at: nat): Phase
    requires request.Edit?
  {
    if LooksBinary(got) then Done(Some(NotText))
    else
      match LiteralEdit(utf8.decode(got), request.old_, request.new_, request.all)
      case Edited(_, _, stored) => Staged(ReplaceIfVersion(seen), stored, at)
      case Ambiguous(_) => Done(Some(AmbiguousEdit))
      case _ => Done(Some(EditNotFound))
  }

  /** The script's exit code as the call sees it, or the error of an exec whose outcome was lost. */
  function AfterPublish(code: nat, lost: Option<Failure>): Phase {
    if lost.Some? then Done(lost)
    else if code == 0 then Renamed
    else if code == EXISTS then Done(Some(NotObserved))
    else if code == CHANGED then Done(Some(StaleVersion))
    else Done(Some(IoError))
  }

  function Advance(w: World, n: nat, phase: Phase): World
    requires n < |w.ops|
  {
    w.(ops := w.ops[n := w.ops[n].(phase := phase)])
  }

  predicate Local(step: Step) {
    step.Stat? || step.Chunk? || step.EndOfFile? || step.Fail? || step.FinalStat?
  }

  /** What a step of a call other than its publish makes of its phase. */
  function NextPhase(utf8: Utf8, w: World, step: Step): Phase
    requires Enabled(w, step) && Local(step)
  {
    var op := w.ops[step.op];
    match step
    case Stat(_) => AfterStat(op.request, w.disk, w.revision)
    case Chunk(_, bytes) => op.phase.(got := op.phase.got + bytes)
    case EndOfFile(_) => if op.request.Edit? then AfterRead(utf8, op.request, op.phase.seen, op.phase.got, op.phase.at) else op.phase
    case Fail(_, f) => Done(Some(f))
    case FinalStat(_, failed) => Done(failed)
  }

  function Next(utf8: Utf8, w: World, step: Step): World
    requires Enabled(w, step)
  {
    match step
    case Outside(disk) => w.(disk := disk, revision := w.revision + 1)
    case Call(request) => w.(ops := w.ops + [Op(request, Called)], lock := Mutex.Next(w.lock, Mutex.Call(KEY)))
    case Begin(n) => w.(lock := Mutex.Next(w.lock, Mutex.Start(n)))
    case Publish(n, mtime, move, lost) =>
      var p := PublishScript(w.ops[n].phase.publish, w.disk, File(utf8.encode(w.ops[n].phase.text), mtime, STAGED_MODE), move);
      var settled := Advance(w, n, AfterPublish(p.code, lost));
      if p.code != 0 then settled
      else settled.(disk := p.disk, revision := w.revision + 1, effects := w.effects + [Effect(n, w.disk, p.disk)])
    case Settle(n) => w.(lock := Mutex.Next(w.lock, Mutex.Settle(n, w.ops[n].phase.failure.None?)))
    case Cleanup(n) => w.(lock := Mutex.Next(w.lock, Mutex.Cleanup(n)))
    case _ => Advance(w, step.op, NextPhase(utf8, w, step))
  }

  // ---------------------------------------------------------------- what a call may do

  /** What a request makes of the target it finds, if it changes it at all. */
  ghost predicate Carries(utf8: Utf8, request: Request, before: Disk, after: Disk) {
    match request
    case Edit(old_, new_, all, expected) =>
      && before.Some? && before.value.File? && !SpecialBits(before.value) && !LooksBinary(before.value.content)
      && (expected.Some? ==> ElementsOf(before.value) == expected.value)
      && after.Some? && after.value.File? && after.value.mode == STAGED_MODE
      && (exists stored :: Rewrites(utf8.decode(before.value.content), old_, new_, all, stored) && after.value.content == utf8.encode(stored))
    case Write(content, guard) =>
      && (guard.CreateIfAbsent? ==> before.None?)
      && (guard.ReplaceIfVersion? ==> before.Some? && ElementsOf(before.value) == guard.version)
      && (if before.Some? && before.value.Directory? then after.Some? && after.value.Directory?
          else after.Some? && after.value.File? && after.value.content == utf8.encode(content) && after.value.mode == STAGED_MODE)
  }

  // ---------------------------------------------------------------- the invariant

  /** A call in flight either still has under it the file it saw, or other elements than it saw. */
  ghost predicate Tracks(utf8: Utf8, w: World, op: Op) {
    match op.phase
    case Reading(seen, got, at) =>
      && op.request.Edit? && seen.bits < PERMISSION_BITS && at <= w.revision
      && if at == w.revision
         then w.disk.Some? && w.disk.value.File? && ElementsOf(w.disk.value) == seen && got <= w.disk.value.content
              && (op.request.expected.Some? ==> op.request.expected.value == seen)
         else w.disk.Some? ==> ElementsOf(w.disk.value) != seen
    case Staged(publish, text, at) =>
      && at <= w.revision
      && (match op.request
          case Write(content, guard) => publish == guard && text == content && (guard.ReplaceIfVersion? ==> guard.version.bits < PERMISSION_BITS)
          case Edit(_, _, _, _) =>
            && publish.ReplaceIfVersion? && publish.version.bits < PERMISSION_BITS
            && if at == w.revision then EditStands(utf8, op.request, w.disk, publish.version, text)
               else w.disk.Some? ==> ElementsOf(w.disk.value) != publish.version)
    case _ => true
  }

  ghost predicate EditStands(utf8: Utf8, request: Request, disk: Disk, seen: Elements, text: string)
    requires request.Edit?
  {
    && disk.Some? && disk.value.File? && ElementsOf(disk.value) == seen
    && (request.expected.Some? ==> request.expected.value == seen)
    && !LooksBinary(disk.value.content)
    && var e := LiteralEdit(utf8.decode(disk.value.content), request.old_, request.new_, request.all);
       e.Edited? && e.stored == text
  }

  ghost predicate LockFits(w: World) {
    && Mutex.Inv(w.lock) && |w.lock.tasks| == |w.ops|
    && (forall t <- w.lock.tasks :: t.key == KEY)
    && (forall n | 0 <= n < |w.ops| :: match w.lock.tasks[n].phase
          case Waiting => w.ops[n].phase.Called?
          case Running => true
          case Settled(_) => w.ops[n].phase.Done?)
  }

  /** Effects come in call order, each from a call past its publish, and do what its request says. */
  ghost predicate EffectsFit(utf8: Utf8, w: World) {
    && (forall e <- w.effects :: e.op < |w.ops| && Over(w.ops[e.op]) && Carries(utf8, w.ops[e.op].request, e.before, e.after))
    && (forall i, j | 0 <= i < j < |w.effects| :: w.effects[i].op < w.effects[j].op)
  }

  /** Success needs an effect, and a refusal or an abort excludes it. */
  predicate Reports(phase: Phase, effect: bool) {
    match phase
    case Renamed => effect
    case Done(None) => effect
    case Done(Some(f)) => effect ==> Mapped(f)
    case _ => true
  }

  ghost predicate ReportsFit(w: World) {
    forall n | 0 <= n < |w.ops| :: Reports(w.ops[n].phase, HadEffect(w.effects, n))
  }

  predicate HadEffect(effects: seq<Effect>, n: nat) {
    exists k | 0 <= k < |effects| :: effects[k].op == n
  }

  ghost predicate Inv(utf8: Utf8, w: World) {
    && LockFits(w) && EffectsFit(utf8, w) && ReportsFit(w)
    && forall op <- w.ops :: Tracks(utf8, w, op)
  }

  lemma OnlyOneHolds(w: World, n: nat, m: nat)
    requires LockFits(w) && Holds(w, n) && m < |w.ops| && m != n
    ensures w.ops[m].phase.Called? || w.ops[m].phase.Done?
  {
    assert Mutex.Same(w.lock, n, m) && Mutex.Same(w.lock, m, n);
  }

  predicate LockStep(step: Step) {
    step.Call? || step.Begin? || step.Settle? || step.Cleanup?
  }

  lemma CallKeepsLockFits(utf8: Utf8, w: World, request: Request)
    requires LockFits(w)
    ensures LockFits(Next(utf8, w, Call(request)))
  {
    Mutex.NextKeepsInv(w.lock, Mutex.Call(KEY));
    hide Mutex.Inv;
  }

  /** A task that starts, or settles once its call is done, fits. */
  lemma PhaseFits(w: World, n: nat, phase: Mutex.Phase, lock: Mutex.State)
    requires LockFits(w) && n < |w.ops| && Mutex.Inv(lock)
    requires lock.tasks == w.lock.tasks[n := w.lock.tasks[n].(phase := phase)]
    requires phase.Running? || (phase.Settled? && w.ops[n].phase.Done?)
    ensures LockFits(w.(lock := lock))
  {
    hide Mutex.Inv;
  }

  lemma GrantKeepsLockFits(utf8: Utf8, w: World, step: Step)
    requires LockFits(w) && Enabled(w, step) && (step.Begin? || step.Settle?)
    ensures LockFits(Next(utf8, w, step))
  {
    var inner := if step.Begin? then Mutex.Start(step.op) else Mutex.Settle(step.op, w.ops[step.op].phase.failure.None?);
    Mutex.NextKeepsInv(w.lock, inner);
    assert Next(utf8, w, step) == w.(lock := Mutex.Next(w.lock, inner));
    var phase := if step.Begin? then Mutex.Running else Mutex.Settled(w.ops[step.op].phase.failure.None?);
    hide Mutex.Inv;
    hide Next;
    PhaseFits(w, step.op, phase, Mutex.Next(w.lock, inner));
  }

  lemma CleanupKeepsLockFits(utf8: Utf8, w: World, n: nat)
    requires LockFits(w) && Enabled(w, Cleanup(n))
    ensures LockFits(Next(utf8, w, Cleanup(n)))
  {
    Mutex.NextKeepsInv(w.lock, Mutex.Cleanup(n));
    hide Mutex.Inv;
  }

  lemma LockStepKeepsLockFits(utf8: Utf8, w: World, step: Step)
    requires LockFits(w) && Enabled(w, step) && LockStep(step)
    ensures LockFits(Next(utf8, w, step))
  {
    hide LockFits;
    hide Next;
    match step
    case Call(request) => CallKeepsLockFits(utf8, w, request);
    case Cleanup(n) => CleanupKeepsLockFits(utf8, w, n);
    case _ => GrantKeepsLockFits(utf8, w, step);
  }

  /** Queueing calls and moving the lock leaves what is known of the target alone. */
  lemma UnmovedKeepsInv(utf8: Utf8, w: World, z: World)
    requires Inv(utf8, w) && LockFits(z)
    requires z.disk == w.disk && z.revision == w.revision && z.effects == w.effects
    requires w.ops <= z.ops && forall n | |w.ops| <= n < |z.ops| :: z.ops[n].phase.Called?
    ensures Inv(utf8, z)
  {
    hide LockFits;
    hide LiteralEdit;
    hide LooksBinary;
    forall op | op in z.ops ensures Tracks(utf8, z, op) {
      if op in w.ops { assert Tracks(utf8, w, op); }
    }
    hide Tracks;
    hide Carries;
    forall n | 0 <= n < |z.ops| && !z.ops[n].phase.Called? ensures n < |w.ops| && z.ops[n] == w.ops[n] {}
    assert forall e <- w.effects :: z.ops[e.op] == w.ops[e.op];
  }

  lemma LockStepKeepsInv(utf8: Utf8, w: World, step: Step)
    requires Inv(utf8, w) && Enabled(w, step) && LockStep(step)
    ensures Inv(utf8, Next(utf8, w, step))
  {
    hide Inv;
    assert LockFits(w) by { InvParts(utf8, w); }
    LockStepKeepsLockFits(utf8, w, step);
    UnmovedKeepsInv(utf8, w, Next(utf8, w, step));
  }

  lemma InvParts(utf8: Utf8, w: World)
    requires Inv(utf8, w)
    ensures LockFits(w) && EffectsFit(utf8, w) && ReportsFit(w)
  {
  }

  lemma OutsideKeepsInv(utf8: Utf8, w: World, disk: Disk)
    requires Inv(utf8, w) && Enabled(w, Outside(disk))
    ensures Inv(utf8, Next(utf8, w, Outside(disk)))
  {
    var z := Next(utf8, w, Outside(disk));
    forall op | op in z.ops ensures Tracks(utf8, z, op) {
      assert Tracks(utf8, w, op) && !Recurs(op, disk);
    }
  }

  /** A step of call `n` alone that leaves the target as it is. */
  lemma AdvanceKeepsInv(utf8: Utf8, w: World, n: nat, phase: Phase)
    requires Inv(utf8, w) && Holds(w, n) && !w.ops[n].phase.Done?
    requires Tracks(utf8, w, Op(w.ops[n].request, phase))
    requires w.ops[n].phase.Renamed? ==> phase.Done?
    requires Reports(phase, w.ops[n].phase.Renamed?)
    ensures Inv(utf8, Advance(w, n, phase))
  {
    var z := Advance(w, n, phase);
    AdvanceReports(utf8, w, n, phase);
    hide EffectsFit;
    hide ReportsFit;
    forall op | op in z.ops ensures Tracks(utf8, z, op) {
      assert op == Op(w.ops[n].request, phase) || op in w.ops;
      assert Tracks(utf8, w, op);
    }
    hide Tracks;
    assert LockFits(z);
  }

  lemma AdvanceReports(utf8: Utf8, w: World, n: nat, phase: Phase)
    requires EffectsFit(utf8, w) && ReportsFit(w) && n < |w.ops| && !w.ops[n].phase.Done?
    requires (w.ops[n].phase.Renamed? ==> phase.Done?) && Reports(phase, w.ops[n].phase.Renamed?)
    ensures EffectsFit(utf8, Advance(w, n, phase)) && ReportsFit(Advance(w, n, phase))
  {
    var z := Advance(w, n, phase);
    EffectIffRenamed(utf8, w, n);
    hide HadEffect;
    hide Reports;
    hide Carries;
    assert forall m | 0 <= m < |w.ops| && m != n :: z.ops[m] == w.ops[m];
    forall e | e in z.effects ensures Over(z.ops[e.op]) && z.ops[e.op].request == w.ops[e.op].request {
      assert e in w.effects;
    }
  }

  /** Of the calls still running, exactly one that has published has had an effect. */
  lemma EffectIffRenamed(utf8: Utf8, w: World, n: nat)
    requires EffectsFit(utf8, w) && ReportsFit(w) && n < |w.ops| && !w.ops[n].phase.Done?
    ensures HadEffect(w.effects, n) <==> w.ops[n].phase.Renamed?
  {
    hide Carries;
    assert Reports(w.ops[n].phase, HadEffect(w.effects, n));
    if HadEffect(w.effects, n) {
      var k :| 0 <= k < |w.effects| && w.effects[k].op == n;
      assert w.effects[k] in w.effects;
    }
  }

  lemma StatTracks(utf8: Utf8, w: World, request: Request)
    ensures Tracks(utf8, w, Op(request, AfterStat(request, w.disk, w.revision)))
  {
  }

  lemma ReadTracks(utf8: Utf8, w: World, op: Op)
    requires Tracks(utf8, w, op) && op.phase.Reading?
    requires op.phase.at == w.revision ==> w.disk.Some? && w.disk.value.File? && op.phase.got == w.disk.value.content
    ensures Tracks(utf8, w, Op(op.request, AfterRead(utf8, op.request, op.phase.seen, op.phase.got, op.phase.at)))
  {
    hide LiteralEdit;
    hide LooksBinary;
  }

  /** What a publish that exits 0 does is what its request says, on the target exactly as it was just before. */
  lemma PublishCarries(utf8: Utf8, w: World, op: Op, mtime: int, move: Move)
    requires Tracks(utf8, w, op) && op.phase.Staged?
    requires PublishScript(op.phase.publish, w.disk, File(utf8.encode(op.phase.text), mtime, STAGED_MODE), move).code == 0
    ensures Carries(utf8, op.request, w.disk,
                    PublishScript(op.phase.publish, w.disk, File(utf8.encode(op.phase.text), mtime, STAGED_MODE), move).disk)
  {
    hide LiteralEdit;
    hide LooksBinary;
    hide Rewrites;
    if w.disk.Some? {
      PrintedIsElements(w.disk.value);
      if op.request.Edit? && w.disk.value.File? {
        EditRewrites(utf8.decode(w.disk.value.content), op.request.old_, op.request.new_, op.request.all, op.phase.text);
      }
    }
  }

  lemma EffectsComeBefore(utf8: Utf8, w: World, n: nat, k: nat)
    requires LockFits(w) && EffectsFit(utf8, w) && Holds(w, n) && !Over(w.ops[n]) && k < |w.effects|
    ensures w.effects[k].op < n
  {
    var e := w.effects[k];
    assert e in w.effects;
    if n < e.op { assert Mutex.Same(w.lock, n, e.op); }
  }

  /** The call that published needs no file any more, and no other call in flight has looked at it. */
  lemma PublishedTracks(utf8: Utf8, w: World, z: World, n: nat)
    requires LockFits(w) && Holds(w, n) && |z.ops| == |w.ops| && Over(z.ops[n])
    requires forall m | 0 <= m < |w.ops| && m != n :: z.ops[m] == w.ops[m]
    ensures forall op <- z.ops :: Tracks(utf8, z, op)
  {
    forall op | op in z.ops ensures Tracks(utf8, z, op) {
      var m :| 0 <= m < |z.ops| && op == z.ops[m];
      if m != n { OnlyOneHolds(w, n, m); }
    }
  }

  lemma PublishKeepsInv(utf8: Utf8, w: World, n: nat, after: Disk, phase: Phase)
    requires Inv(utf8, w) && Holds(w, n) && !Over(w.ops[n])
    requires Carries(utf8, w.ops[n].request, w.disk, after) && (phase.Renamed? || (phase.Done? && Reports(phase, true)))
    ensures Inv(utf8, Advance(w, n, phase).(disk := after, revision := w.revision + 1, effects := w.effects + [Effect(n, w.disk, after)]))
  {
    var z := Advance(w, n, phase).(disk := after, revision := w.revision + 1, effects := w.effects + [Effect(n, w.disk, after)]);
    PublishedTracks(utf8, w, z, n);
    hide Tracks;
    hide Carries;
    forall k | 0 <= k < |w.effects| ensures w.effects[k].op < n && z.effects[k] == w.effects[k] { EffectsComeBefore(utf8, w, n, k); }
    assert LockFits(z);
    hide LockFits;
    assert z.effects[|w.effects|].op == n;
    EffectsGrow(utf8, w, z, n);
  }

  lemma EffectsGrow(utf8: Utf8, w: World, z: World, n: nat)
    requires EffectsFit(utf8, w) && ReportsFit(w) && n < |w.ops| == |z.ops| && !Over(w.ops[n])
    requires forall m | 0 <= m < |w.ops| && m != n :: z.ops[m] == w.ops[m]
    requires Over(z.ops[n]) && Reports(z.ops[n].phase, true) && z.ops[n].request == w.ops[n].request
    requires |z.effects| == |w.effects| + 1 && z.effects[..|w.effects|] == w.effects && z.effects[|w.effects|].op == n
    requires Carries(utf8, z.ops[n].request, z.effects[|w.effects|].before, z.effects[|w.effects|].after)
    requires forall k | 0 <= k < |w.effects| :: w.effects[k].op < n
    ensures EffectsFit(utf8, z) && ReportsFit(z)
  {
    EffectAppended(utf8, w, z, n);
    hide EffectsFit;
    hide Carries;
    forall m | 0 <= m < |z.ops| ensures Reports(z.ops[m].phase, HadEffect(z.effects, m)) {
      HadOneMore(w.effects, z.effects, n, m);
      hide HadEffect;
      hide Reports;
    }
  }

  lemma EffectAppended(utf8: Utf8, w: World, z: World, n: nat)
    requires EffectsFit(utf8, w) && n < |w.ops| == |z.ops|
    requires forall m | 0 <= m < |w.ops| && m != n :: z.ops[m] == w.ops[m]
    requires Over(z.ops[n])
    requires |z.effects| == |w.effects| + 1 && z.effects[..|w.effects|] == w.effects && z.effects[|w.effects|].op == n
    requires Carries(utf8, z.ops[n].request, z.effects[|w.effects|].before, z.effects[|w.effects|].after)
    requires forall k | 0 <= k < |w.effects| :: w.effects[k].op < n
    ensures EffectsFit(utf8, z)
  {
    hide Carries;
    hide Over;
    assert forall k | 0 <= k < |w.effects| :: z.effects[k] == w.effects[k];
    forall e | e in z.effects ensures e.op < |z.ops| && Over(z.ops[e.op]) && Carries(utf8, z.ops[e.op].request, e.before, e.after) {
      if e in w.effects { assert e.op != n; } else { assert e == z.effects[|w.effects|]; }
    }
  }

  lemma HadOneMore(effects: seq<Effect>, more: seq<Effect>, n: nat, m: nat)
    requires |more| == |effects| + 1 && more[..|effects|] == effects && more[|effects|].op == n
    ensures HadEffect(more, m) <==> m == n || HadEffect(effects, m)
  {
    assert forall k | 0 <= k < |effects| :: more[k] == effects[k];
  }

  lemma NextPhaseFits(utf8: Utf8, w: World, step: Step)
    requires Enabled(w, step) && Local(step)
    requires Tracks(utf8, w, w.ops[step.op])
    ensures var op := w.ops[step.op];
            var phase := NextPhase(utf8, w, step);
            && !op.phase.Done? && Tracks(utf8, w, Op(op.request, phase)) && Reports(phase, op.phase.Renamed?)
            && (op.phase.Renamed? ==> phase.Done?)
  {
    var op := w.ops[step.op];
    if step.Stat? { StatTracks(utf8, w, op.request); }
    if step.EndOfFile? { ReadTracks(utf8, w, op); }
    hide LiteralEdit;
    hide LooksBinary;
    hide EditStands;
  }

  lemma OpStepKeepsInv(utf8: Utf8, w: World, step: Step)
    requires Inv(utf8, w) && Enabled(w, step) && !LockStep(step) && !step.Outside? && !step.Publish?
    ensures Inv(utf8, Next(utf8, w, step))
  {
    var n := step.op;
    assert Tracks(utf8, w, w.ops[n]);
    assert Next(utf8, w, step) == Advance(w, n, NextPhase(utf8, w, step));
    hide Inv;
    hide Next;
    hide NextPhase;
    NextPhaseFits(utf8, w, step);
    AdvanceKeepsInv(utf8, w, n, NextPhase(utf8, w, step));
  }

  lemma PublishIs(utf8: Utf8, w: World, step: Step)
    requires Enabled(w, step) && step.Publish?
    ensures var op := w.ops[step.op];
            var p := PublishScript(op.phase.publish, w.disk, File(utf8.encode(op.phase.text), step.mtime, STAGED_MODE), step.move);
            var z := Advance(w, step.op, AfterPublish(p.code, step.lost));
            && Holds(w, step.op) && op.phase.Staged? && (step.lost.Some? ==> Mapped(step.lost.value))
            && Next(utf8, w, step) ==
                 if p.code != 0 then z
                 else z.(disk := p.disk, revision := w.revision + 1, effects := w.effects + [Effect(step.op, w.disk, p.disk)])
  {
    hide PublishScript;
    hide AfterPublish;
  }

  lemma AfterPublishFits(utf8: Utf8, w: World, request: Request, code: nat, lost: Option<Failure>)
    requires lost.Some? ==> Mapped(lost.value)
    ensures var phase := AfterPublish(code, lost);
            && (code == 0 ==> phase.Renamed? || (phase.Done? && Reports(phase, true)))
            && (code != 0 ==> Reports(phase, false) && Tracks(utf8, w, Op(request, phase)))
  {
  }

  lemma PublishStepKeepsInv(utf8: Utf8, w: World, step: Step)
    requires Inv(utf8, w) && Enabled(w, step) && step.Publish?
    ensures Inv(utf8, Next(utf8, w, step))
  {
    var n := step.op;
    var op := w.ops[n];
    assert Tracks(utf8, w, op);
    PublishIs(utf8, w, step);
    hide Inv;
    hide Next;
    hide Enabled;
    hide PublishScript;
    hide AfterPublish;
    hide Advance;
    var p := PublishScript(op.phase.publish, w.disk, File(utf8.encode(op.phase.text), step.mtime, STAGED_MODE), step.move);
    AfterPublishFits(utf8, w, op.request, p.code, step.lost);
    hide Tracks;
    hide Reports;
    if p.code == 0 {
      PublishCarries(utf8, w, op, step.mtime, step.move);
      hide Carries;
      PublishKeepsInv(utf8, w, n, p.disk, AfterPublish(p.code, step.lost));
    } else {
      AdvanceKeepsInv(utf8, w, n, AfterPublish(p.code, step.lost));
    }
  }

  lemma NextKeepsInv(utf8: Utf8, w: World, step: Step)
    requires Inv(utf8, w) && Enabled(w, step)
    ensures Inv(utf8, Next(utf8, w, step))
  {
    hide Inv;
    hide Next;
    if LockStep(step) { LockStepKeepsInv(utf8, w, step); }
    else if step.Outside? { OutsideKeepsInv(utf8, w, step.disk); }
    else if step.Publish? { PublishStepKeepsInv(utf8, w, step); }
    else { OpStepKeepsInv(utf8, w, step); }
  }

  /** Calling, starting, settling and cleaning up are the mutex's own steps, and touch nothing but it and the list of calls. */
  lemma LockFollowsMutex(utf8: Utf8, w: World, step: Step)
    requires LockFits(w) && Enabled(w, step)
    ensures var z := Next(utf8, w, step);
            && (step.Call? ==> z.lock == Mutex.Next(w.lock, Mutex.Call(KEY)) && z.ops == w.ops + [Op(step.request, Called)])
            && (step.Begin? ==> z.lock == Mutex.Next(w.lock, Mutex.Start(step.op)))
            && (step.Settle? ==> z.lock == Mutex.Next(w.lock, Mutex.Settle(step.op, w.ops[step.op].phase.failure.None?)))
            && (step.Cleanup? ==> z.lock == Mutex.Next(w.lock, Mutex.Cleanup(step.op)))
            && (!LockStep(step) ==> z.lock == w.lock)
            && (LockStep(step) ==> z.disk == w.disk && z.effects == w.effects && (!step.Call? ==> z.ops == w.ops))
  {
    hide Mutex.Next;
  }

  // ---------------------------------------------------------------- why a call ends

  /** How the stat of an edit decides: the first of these that holds, or on to the read. */
  lemma EditStatDecides(utf8: Utf8, w: World, n: nat)
    requires Enabled(w, Stat(n)) && w.ops[n].request.Edit?
    ensures var r := w.ops[n].request;
            var phase := Next(utf8, w, Stat(n)).ops[n].phase;
            && (phase == Done(Some(EditNotFound)) <==> r.old_ == "")
            && (phase == Done(Some(Failure.NotFound)) <==> r.old_ != "" && w.disk.None?)
            && (phase == Done(Some(NotRegular)) <==> r.old_ != "" && w.disk.Some? && w.disk.value.Directory?)
            && (phase == Done(Some(StaleVersion)) <==>
                  r.old_ != "" && w.disk.Some? && w.disk.value.File? && r.expected !in {None, Some(ElementsOf(w.disk.value))})
            && (phase.Reading? <==>
                  r.old_ != "" && w.disk.Some? && w.disk.value.File? && r.expected in {None, Some(ElementsOf(w.disk.value))})
            && (phase.Reading? ==> phase == Reading(ElementsOf(w.disk.value), [], w.revision))
  {
  }

  /** How the stat of a write decides. */
  lemma WriteStatDecides(utf8: Utf8, w: World, n: nat)
    requires Enabled(w, Stat(n)) && w.ops[n].request.Write?
    ensures var guard := w.ops[n].request.guard;
            var phase := Next(utf8, w, Stat(n)).ops[n].phase;
            && (phase == Done(Some(NotObserved)) <==> guard.CreateIfAbsent? && w.disk.Some?)
            && (phase == Done(Some(StaleVersion)) <==>
                  guard.ReplaceIfVersion? && !(w.disk.Some? && ElementsOf(w.disk.value) == guard.version))
            && (phase == Staged(guard, w.ops[n].request.content, w.revision) <==>
                  || guard.Force? || (guard.CreateIfAbsent? && w.disk.None?)
                  || (guard.ReplaceIfVersion? && w.disk.Some? && ElementsOf(w.disk.value) == guard.version))
  {
  }

  lemma AfterReadIs(utf8: Utf8, r: Request, seen: Elements, got: seq<Byte>, at: nat, parts: seq<string>)
    requires r.Edit? && r.old_ != "" && Cuts(parts, NormalizeLf(utf8.decode(got)), r.old_)
    ensures var phase := AfterRead(utf8, r, seen, got, at);
            && (phase == Done(Some(NotText)) <==> LooksBinary(got))
            && (phase == Done(Some(EditNotFound)) <==> !LooksBinary(got) && |parts| == 1)
            && (phase == Done(Some(AmbiguousEdit)) <==> !LooksBinary(got) && |parts| > 2 && !r.all)
            && (phase.Staged? <==> !LooksBinary(got) && (|parts| == 2 || (|parts| > 2 && r.all)))
            && (phase.Staged? ==> phase.publish == ReplaceIfVersion(seen) && Rewrites(utf8.decode(got), r.old_, r.new_, r.all, phase.text))
  {
    var raw := utf8.decode(got);
    LiteralEditIs(raw, r.old_, r.new_, r.all, parts);
    var e := LiteralEdit(raw, r.old_, r.new_, r.all);
    if e.Edited? { EditRewrites(raw, r.old_, r.new_, r.all, e.stored); }
    hide LiteralEdit;
    hide Cuts;
    hide Rewrites;
    hide LooksBinary;
  }

  /**
   How the end of the read decides, `parts` being what was read cut around the
   matches; undisturbed, what was read is the file.
   */
  lemma ReadDecides(utf8: Utf8, w: World, n: nat, parts: seq<string>)
    requires Enabled(w, EndOfFile(n)) && w.ops[n].request.Edit? && w.ops[n].request.old_ != ""
    requires Cuts(parts, NormalizeLf(utf8.decode(w.ops[n].phase.got)), w.ops[n].request.old_)
    ensures var r, got := w.ops[n].request, w.ops[n].phase.got;
            var phase := Next(utf8, w, EndOfFile(n)).ops[n].phase;
            var binary := LooksBinary(got);
            && (w.ops[n].phase.at == w.revision ==> w.disk.Some? && w.disk.value.File? && got == w.disk.value.content)
            && (phase == Done(Some(NotText)) <==> binary)
            && (phase == Done(Some(EditNotFound)) <==> !binary && |parts| == 1)
            && (phase == Done(Some(AmbiguousEdit)) <==> !binary && |parts| > 2 && !r.all)
            && (phase.Staged? <==> !binary && (|parts| == 2 || (|parts| > 2 && r.all)))
            && (phase.Staged? ==>
                  && phase.publish == ReplaceIfVersion(w.ops[n].phase.seen)
                  && Rewrites(utf8.decode(got), r.old_, r.new_, r.all, phase.text))
  {
    var op := w.ops[n];
    hide LooksBinary;
    assert Next(utf8, w, EndOfFile(n)).ops[n].phase == AfterRead(utf8, op.request, op.phase.seen, op.phase.got, op.phase.at);
    hide Next;
    hide AfterRead;
    hide Cuts;
    hide Rewrites;
    AfterReadIs(utf8, op.request, op.phase.seen, op.phase.got, op.phase.at, parts);
  }

  /** How the script's exit decides, in every reachable state, in terms of guard, target and rename alone. */
  lemma PublishDecides(utf8: Utf8, w: World, step: Step)
    requires Inv(utf8, w) && Enabled(w, step) && step.Publish?
    ensures var guard := w.ops[step.op].phase.publish;
            var z := Next(utf8, w, step);
            var phase := z.ops[step.op].phase;
            var exists_ := guard.CreateIfAbsent? && w.disk.Some?;
            var stale := guard.ReplaceIfVersion? && !(w.disk.Some? && ElementsOf(w.disk.value) == guard.version && !SpecialBits(w.disk.value));
            && (step.lost.Some? ==> phase == Done(step.lost))
            && (step.lost.None? ==>
                  && (phase == Done(Some(NotObserved)) <==> exists_)
                  && (phase == Done(Some(StaleVersion)) <==> stale)
                  && (phase == Done(Some(IoError)) <==> !exists_ && !stale && step.move.Fails?)
                  && (phase == Renamed <==> !exists_ && !stale && step.move.Works?))
            && (exists_ || stale || step.move.Fails? ==> z.disk == w.disk)
            && (!exists_ && !stale && step.move.Works? && (w.disk.None? || w.disk.value.File?) ==>
                  z.disk == Some(File(utf8.encode(w.ops[step.op].phase.text), step.mtime, 0x180)))
  {
    var op := w.ops[step.op];
    assert Tracks(utf8, w, op);
    hide Inv;
    hide EditStands;
    ExitCodes(op.phase.publish, w.disk, File(utf8.encode(op.phase.text), step.mtime, STAGED_MODE), step.move);
  }

  // ---------------------------------------------------------------- whole runs

  ghost predicate Runs(utf8: Utf8, w: World, steps: seq<Step>, z: World)
    decreases |steps|
  {
    if steps == [] then z == w else Enabled(w, steps[0]) && Runs(utf8, Next(utf8, w, steps[0]), steps[1..], z)
  }

  lemma {:induction false} RunsKeepInv(utf8: Utf8, w: World, steps: seq<Step>, z: World)
    requires Inv(utf8, w) && Runs(utf8, w, steps, z)
    ensures Inv(utf8, z)
    decreases |steps|
  {
    hide Inv;
    hide Enabled;
    if steps != [] {
      NextKeepsInv(utf8, w, steps[0]);
      RunsKeepInv(utf8, Next(utf8, w, steps[0]), steps[1..], z);
    }
  }

  /**
   In every run, whatever outside writers do between the steps: each change a
   call made is exactly what its request makes of the target just before it;
   the changes come in call order; a call that reported success made its
   change, and one that was aborted or refused, by a check on what it read or by
   exit 3 or 4, made none.
   */
  lemma GuardedCallsAreExact(utf8: Utf8, disk: Disk, steps: seq<Step>, z: World)
    requires Runs(utf8, Initially(disk), steps, z)
    ensures forall e <- z.effects :: e.op < |z.ops| && Carries(utf8, z.ops[e.op].request, e.before, e.after)
    ensures forall i, j | 0 <= i < j < |z.effects| :: z.effects[i].op < z.effects[j].op
    ensures forall n | 0 <= n < |z.ops| && z.ops[n].phase.Done? ::
              && (z.ops[n].phase.failure.None? ==> HadEffect(z.effects, n))
              && (z.ops[n].phase.failure.Some? && (Refusal(z.ops[n].phase.failure.value) || z.ops[n].phase.failure.value.Aborted?) ==>
                    !HadEffect(z.effects, n))
  {
    StartHolds(utf8, disk);
    RunsKeepInv(utf8, Initially(disk), steps, z);
    hide Runs;
    hide Tracks;
    hide Carries;
    hide LockFits;
    EffectsAreReported(z);
    hide ReportsFit;
  }

  lemma StartHolds(utf8: Utf8, disk: Disk)
    ensures Inv(utf8, Initially(disk))
  {
  }

  lemma EffectsAreReported(w: World)
    requires ReportsFit(w)
    ensures forall n | 0 <= n < |w.ops| && w.ops[n].phase.Done? ::
              && (w.ops[n].phase.failure.None? ==> HadEffect(w.effects, n))
              && (w.ops[n].phase.failure.Some? && (Refusal(w.ops[n].phase.failure.value) || w.ops[n].phase.failure.value.Aborted?) ==>
                    !HadEffect(w.effects, n))
  {
    hide HadEffect;
    assert forall n | 0 <= n < |w.ops| :: Reports(w.ops[n].phase, HadEffect(w.effects, n));
  }

  /**
   Exactly how a call comes to fail although it changed the target: its script
   exited 0 and that was lost, or the stat after it failed.
   */
  lemma FailsAfterChangeIff(utf8: Utf8, w: World, step: Step, n: nat)
    requires Inv(utf8, w) && Enabled(w, step) && n < |w.ops| && !w.ops[n].phase.Done?
    ensures var z := Next(utf8, w, step);
            (z.ops[n].phase.Done? && z.ops[n].phase.failure.Some? && HadEffect(z.effects, n)) <==>
              || (step.Publish? && step.op == n && step.lost.Some?
                  && PublishScript(w.ops[n].phase.publish, w.disk, File(utf8.encode(w.ops[n].phase.text), step.mtime, STAGED_MODE), step.move).code == 0)
              || (step.FinalStat? && step.op == n && step.failed.Some?)
  {
    var z := Next(utf8, w, step);
    EffectIffRenamed(utf8, w, n);
    if z.effects != w.effects {
      assert z.effects[..|w.effects|] == w.effects;
      HadOneMore(w.effects, z.effects, step.op, n);
    }
    hide HadEffect;
    hide Inv;
    hide PublishScript;
  }

  /** Only an outside write or a publish that exits 0 changes the target. */
  lemma OnlyPublishChanges(utf8: Utf8, w: World, step: Step)
    requires Inv(utf8, w) && Enabled(w, step)
    ensures var z := Next(utf8, w, step);
            step.Outside? || z.disk == w.disk ||
            (step.Publish? && z.effects == w.effects + [Effect(step.op, w.disk, z.disk)] && Carries(utf8, w.ops[step.op].request, w.disk, z.disk))
  {
    if step.Publish? {
      var op := w.ops[step.op];
      assert Tracks(utf8, w, op);
      var p := PublishScript(op.phase.publish, w.disk, File(utf8.encode(op.phase.text), step.mtime, STAGED_MODE), step.move);
      if p.code == 0 { PublishCarries(utf8, w, op, step.mtime, step.move); }
    }
  }

  /** Each change starts from what the one before it left. */
  ghost predicate Chain(from: Disk, effects: seq<Effect>, to: Disk)
    decreases |effects|
  {
    if effects == [] then to == from
    else to == effects[|effects| - 1].after && Chain(from, effects[..|effects| - 1], effects[|effects| - 1].before)
  }

  /** Without outside writers the target is its first state taken through the calls' changes, one after the other in call order. */
  lemma {:induction false} QuietRunsAreSequential(utf8: Utf8, disk: Disk, w: World, steps: seq<Step>, z: World)
    requires Inv(utf8, w) && Chain(disk, w.effects, w.disk) && Runs(utf8, w, steps, z)
    requires forall step <- steps :: !step.Outside?
    ensures Chain(disk, z.effects, z.disk)
    decreases |steps|
  {
    hide Inv;
    hide Enabled;
    if steps != [] {
      var n := Next(utf8, w, steps[0]);
      assert steps[0] in steps;
      NextKeepsInv(utf8, w, steps[0]);
      StepChains(utf8, disk, w, steps[0]);
      QuietRunsAreSequential(utf8, disk, n, steps[1..], z);
    }
  }

  lemma StepChains(utf8: Utf8, disk: Disk, w: World, step: Step)
    requires Enabled(w, step) && !step.Outside? && Chain(disk, w.effects, w.disk)
    ensures Chain(disk, Next(utf8, w, step).effects, Next(utf8, w, step).disk)
  {
    hide PublishScript;
    var z := Next(utf8, w, step);
    if z.effects != w.effects {
      assert z.effects[..|z.effects| - 1] == w.effects;
    }
  }

  /** Over a target with a set-id or sticky bit no edit publishes, in any run: the target and its history stay. */
  lemma SpecialBitsBlockEdits(utf8: Utf8, w: World, step: Step)
    requires Inv(utf8, w) && Enabled(w, step) && step.Publish? && w.ops[step.op].request.Edit?
    requires w.disk.Some? && SpecialBits(w.disk.value)
    ensures Next(utf8, w, step).disk == w.disk && Next(utf8, w, step).effects == w.effects
  {
    assert Tracks(utf8, w, w.ops[step.op]);
    hide LiteralEdit;
    hide LooksBinary;
  }

  /**
   In any run, the script of an edit whose target nobody changed since its stat
   exits 4 exactly when the target has a set-id or sticky bit, and 0 exactly when
   it has none and the rename works.
   */
  lemma UndisturbedScript(utf8: Utf8, w: World, step: Step)
    requires Inv(utf8, w) && Enabled(w, step) && step.Publish? && w.ops[step.op].request.Edit?
    requires w.ops[step.op].phase.at == w.revision
    ensures var staged := File(utf8.encode(w.ops[step.op].phase.text), step.mtime, STAGED_MODE);
            var code := PublishScript(w.ops[step.op].phase.publish, w.disk, staged, step.move).code;
            && w.disk.Some?
            && (code == CHANGED <==> SpecialBits(w.disk.value))
            && (code == 0 <==> !SpecialBits(w.disk.value) && step.move.Works?)
  {
    assert Tracks(utf8, w, w.ops[step.op]);
    hide LiteralEdit;
    hide LooksBinary;
    PrintedIsElements(w.disk.value);
  }

  /**
   From every state in which an edit holds the lock over a text file it matches
   there is an undisturbed run to its end; it succeeds exactly when the file has
   no set-id or sticky bit, and with one reports a stale version.
   */
  lemma UndisturbedEdit(utf8: Utf8, w: World, n: nat, f: Entry, mtime: int, bytes: nat) returns (steps: seq<Step>, z: World)
    requires Holds(w, n) && w.ops[n].phase.Called? && w.ops[n].request.Edit? && w.ops[n].request.expected.None?
    requires w.disk == Some(f) && f.File? && !LooksBinary(f.content)
    requires LiteralEdit(utf8.decode(f.content), w.ops[n].request.old_, w.ops[n].request.new_, w.ops[n].request.all).Edited?
    ensures Runs(utf8, w, steps, z) && forall step <- steps :: !step.Outside?
    ensures n < |z.ops| && z.ops[n].phase == Done(if SpecialBits(f) then Some(StaleVersion) else None)
    ensures SpecialBits(f) ==> z.disk == w.disk
    ensures !SpecialBits(f) ==> Carries(utf8, w.ops[n].request, w.disk, z.disk)
  {
    steps, z := UndisturbedToPublish(utf8, w, n, f, mtime, bytes);
    if !SpecialBits(f) {
      var last := FinalStat(n, None);
      var y := Next(utf8, z, last);
      NoSteps(utf8, y);
      RunsOneMore(utf8, z, last, [], y);
      RunsJoin(utf8, w, steps, z, [last], y);
      steps, z := steps + [last], y;
    }
  }

  lemma {:induction false} RunsJoin(utf8: Utf8, w: World, a: seq<Step>, m: World, b: seq<Step>, z: World)
    requires Runs(utf8, w, a, m) && Runs(utf8, m, b, z)
    ensures Runs(utf8, w, a + b, z)
    decreases |a|
  {
    hide Enabled;
    hide Next;
    if a == [] {
      assert a + b == b;
    } else {
      assert (a + b)[1..] == a[1..] + b;
      RunsJoin(utf8, Next(utf8, w, a[0]), a[1..], m, b, z);
    }
  }

  /** The same, up to the script: published but not yet stat'ed again, or refused. */
  lemma UndisturbedToPublish(utf8: Utf8, w: World, n: nat, f: Entry, mtime: int, bytes: nat) returns (steps: seq<Step>, z: World)
    requires Holds(w, n) && w.ops[n].phase.Called? && w.ops[n].request.Edit? && w.ops[n].request.expected.None?
    requires w.disk == Some(f) && f.File? && !LooksBinary(f.content)
    requires LiteralEdit(utf8.decode(f.content), w.ops[n].request.old_, w.ops[n].request.new_, w.ops[n].request.all).Edited?
    ensures Runs(utf8, w, steps, z) && forall step <- steps :: !step.Outside?
    ensures Holds(z, n) && z.ops[n] == Op(w.ops[n].request, if SpecialBits(f) then Done(Some(StaleVersion)) else Renamed)
    ensures |z.ops| == |w.ops| && forall m | 0 <= m < |w.ops| && m != n :: z.ops[m] == w.ops[m]
    ensures SpecialBits(f) ==> z.disk == w.disk && z.effects == w.effects
    ensures !SpecialBits(f) ==> z.disk.Some? && Carries(utf8, w.ops[n].request, w.disk, z.disk) && z.effects == w.effects + [Effect(n, w.disk, z.disk)]
  {
    var w1 := UndisturbedStat(utf8, w, n, f);
    var w3 := UndisturbedRead(utf8, w1, n, f);
    var last := Publish(n, mtime, Works(bytes, mtime), None);
    UndisturbedPublish(utf8, w3, n, f, mtime, bytes);
    z := Next(utf8, w3, last);
    hide *;
    steps := [Stat(n), Chunk(n, f.content), EndOfFile(n), last];
    assert Runs(utf8, z, [], z) by { NoSteps(utf8, z); }
    RunsOneMore(utf8, w3, last, [], z);
    RunsOneMore(utf8, Next(utf8, w1, Chunk(n, f.content)), EndOfFile(n), [last], z);
    RunsOneMore(utf8, w1, Chunk(n, f.content), [EndOfFile(n), last], z);
    RunsOneMore(utf8, w, Stat(n), [Chunk(n, f.content), EndOfFile(n), last], z);
  }

  lemma NoSteps(utf8: Utf8, z: World)
    ensures Runs(utf8, z, [], z)
  {
  }

  lemma UndisturbedStat(utf8: Utf8, w: World, n: nat, f: Entry) returns (w1: World)
    requires Holds(w, n) && w.ops[n].phase.Called? && w.ops[n].request.Edit? && w.ops[n].request.expected.None?
    requires w.disk == Some(f) && f.File?
    requires LiteralEdit(utf8.decode(f.content), w.ops[n].request.old_, w.ops[n].request.new_, w.ops[n].request.all).Edited?
    ensures Enabled(w, Stat(n)) && w1 == Next(utf8, w, Stat(n)) == Advance(w, n, Reading(ElementsOf(f), [], w.revision))
  {
    w1 := Next(utf8, w, Stat(n));
  }

  lemma UndisturbedRead(utf8: Utf8, w1: World, n: nat, f: Entry) returns (w3: World)
    requires Holds(w1, n) && w1.ops[n].phase == Reading(ElementsOf(f), [], w1.revision) && w1.ops[n].request.Edit?
    requires w1.disk == Some(f) && f.File? && !LooksBinary(f.content)
    requires LiteralEdit(utf8.decode(f.content), w1.ops[n].request.old_, w1.ops[n].request.new_, w1.ops[n].request.all).Edited?
    ensures Enabled(w1, Chunk(n, f.content)) && Enabled(Next(utf8, w1, Chunk(n, f.content)), EndOfFile(n))
    ensures w3 == Next(utf8, Next(utf8, w1, Chunk(n, f.content)), EndOfFile(n))
    ensures w3 == Advance(w1, n, Staged(ReplaceIfVersion(ElementsOf(f)),
                LiteralEdit(utf8.decode(f.content), w1.ops[n].request.old_, w1.ops[n].request.new_, w1.ops[n].request.all).stored, w1.revision))
  {
    hide LiteralEdit;
    hide LooksBinary;
    assert [] + f.content == f.content;
    var w2 := Next(utf8, w1, Chunk(n, f.content));
    assert w2.ops[n].phase == Reading(ElementsOf(f), f.content, w1.revision);
    w3 := Next(utf8, w2, EndOfFile(n));
    assert w3.ops == w1.ops[n := w3.ops[n]];
  }

  lemma UndisturbedPublish(utf8: Utf8, w3: World, n: nat, f: Entry, mtime: int, bytes: nat)
    requires Holds(w3, n) && w3.disk == Some(f) && f.File? && !LooksBinary(f.content)
    requires w3.ops[n].request.Edit? && w3.ops[n].request.expected.None?
    requires w3.ops[n].phase.Staged? && w3.ops[n].phase.publish == ReplaceIfVersion(ElementsOf(f))
    requires var r := w3.ops[n].request;
             var e := LiteralEdit(utf8.decode(f.content), r.old_, r.new_, r.all);
             e.Edited? && e.stored == w3.ops[n].phase.text
    ensures var step := Publish(n, mtime, Works(bytes, mtime), None);
            && Enabled(w3, step)
            && var z := Next(utf8, w3, step);
               && z.lock == w3.lock && z.ops == w3.ops[n := Op(w3.ops[n].request, if SpecialBits(f) then Done(Some(StaleVersion)) else Renamed)]
               && (SpecialBits(f) ==> z.disk == w3.disk && z.effects == w3.effects)
               && (!SpecialBits(f) ==> z.disk.Some? && Carries(utf8, w3.ops[n].request, w3.disk, z.disk))
               && (!SpecialBits(f) ==> z.effects == w3.effects + [Effect(n, w3.disk, z.disk)])
  {
    hide LiteralEdit;
    hide LooksBinary;
    hide Rewrites;
    PrintedIsElements(f);
    EditRewrites(utf8.decode(f.content), w3.ops[n].request.old_, w3.ops[n].request.new_, w3.ops[n].request.all, w3.ops[n].phase.text);
  }

  lemma RunsOneMore(utf8: Utf8, w: World, step: Step, steps: seq<Step>, z: World)
    requires Enabled(w, step) && Runs(utf8, Next(utf8, w, step), steps, z)
    ensures Runs(utf8, w, [step] + steps, z)
  {
    assert ([step] + steps)[1..] == steps;
  }

  lemma FirstCallStarts(utf8: Utf8, request: Request, f: Entry)
    ensures var w0 := Initially(Some(f));
            var w1 := Next(utf8, w0, Call(request));
            Enabled(w0, Call(request)) && Enabled(w1, Begin(0))
            && var w2 := Next(utf8, w1, Begin(0));
               Holds(w2, 0) && w2.ops == [Op(request, Called)] && w2.disk == Some(f) && w2.effects == []
  {
  }

  /** Published by the only call there is, then removed by somebody else, the target is missing at the last stat. */
  lemma RemovedBeforeStat(utf8: Utf8, w: World, e: Effect) returns (z: World)
    requires Holds(w, 0) && |w.ops| == 1 && w.ops[0].phase == Renamed && w.effects == [e] && e.op == 0
    ensures Runs(utf8, w, [Outside(None), FinalStat(0, Some(Failure.NotFound))], z)
    ensures |z.ops| == 1 && z.ops[0].phase == Done(Some(Failure.NotFound)) && HadEffect(z.effects, 0)
  {
    var y := Next(utf8, w, Outside(None));
    z := Next(utf8, y, FinalStat(0, Some(Failure.NotFound)));
    assert z.effects[0].op == 0;
    NoSteps(utf8, z);
    RunsOneMore(utf8, y, FinalStat(0, Some(Failure.NotFound)), [], z);
    RunsOneMore(utf8, w, Outside(None), [FinalStat(0, Some(Failure.NotFound))], z);
  }

  /**
   A run in which an edit changes its file and still fails, with the code of a
   missing file: somebody removes the target before the stat that follows.
   */
  lemma ChangedYetNotFound(utf8: Utf8, request: Request, f: Entry) returns (steps: seq<Step>, z: World)
    requires request.Edit? && request.expected.None? && f.File? && !SpecialBits(f) && !LooksBinary(f.content)
    requires LiteralEdit(utf8.decode(f.content), request.old_, request.new_, request.all).Edited?
    ensures Runs(utf8, Initially(Some(f)), steps, z)
    ensures |z.ops| == 1 && z.ops[0].phase == Done(Some(Failure.NotFound)) && HadEffect(z.effects, 0)
  {
    hide LiteralEdit;
    hide LooksBinary;
    var w0 := Initially(Some(f));
    var w1 := Next(utf8, w0, Call(request));
    FirstCallStarts(utf8, request, f);
    var w2 := Next(utf8, w1, Begin(0));
    var edit, w3 := UndisturbedToPublish(utf8, w2, 0, f, 0, 0);
    hide Next;
    hide Enabled;
    hide Carries;
    z := RemovedBeforeStat(utf8, w3, Effect(0, w2.disk, w3.disk));
    RunsJoin(utf8, w2, edit, w3, [Outside(None), FinalStat(0, Some(Failure.NotFound))], z);
    steps := edit + [Outside(None), FinalStat(0, Some(Failure.NotFound))];
    RunsOneMore(utf8, w1, Begin(0), steps, z);
    RunsOneMore(utf8, w0, Call(request), [Begin(0)] + steps, z);
    steps := [Call(request)] + ([Begin(0)] + steps);
  }

  /**
   Why recurrence must be ruled out on the elements and not on the full mode:
   over a file that lost its set-id bit while its content changed, the guard
   still passes although the printed triple is new.
   */
  lemma FullModeIsNotEnough(before: Entry, after: Entry, staged: Entry, bytes: nat, mtime: int)
    requires SpecialBits(before) && !SpecialBits(after) && before != after && ElementsOf(before) == ElementsOf(after)
    ensures Printed(before) != Printed(after)
    ensures PublishScript(ReplaceIfVersion(ElementsOf(before)), Some(after), staged, Works(bytes, mtime)).code == 0
  {
    PrintedIsElements(before);
    PrintedIsElements(after);
  }
}
