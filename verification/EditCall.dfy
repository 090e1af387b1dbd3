/**
 One activation of `performEdit` or `performWrite` (packages/fs-ssh/src/fs-ssh.ts):
 its local variables as fields, the code between two awaits as a method, and the
 remote target with its publish script. Each method is proved to take the step
 of GuardedEdit it stands for.
 */
module EditCall {
  import opened Wrappers
  import opened Base64
  import opened Text
  import G = GuardedEdit

  /** The remote file and the script that publishes over it. */
  class RemoteTarget {
    var disk: G.Disk

    constructor (disk: G.Disk)
      ensures this.disk == disk
    {
      this.disk := disk;
    }

    /** Re-check the guard and rename in one critical section; the exit code. */
    method Publish(guard: G.Guard, staged: G.Entry, move: G.Move) returns (code: nat)
      modifies this
      ensures G.Published(code, disk) == G.PublishScript(guard, old(disk), staged, move)
    {
      match guard {
        case CreateIfAbsent =>
          if disk.Some? { return G.EXISTS; }
        case ReplaceIfVersion(version) =>
          if disk.None? { return G.CHANGED; }
          var printed := G.Printed(disk.value);
          if printed.size != version.size || printed.mtime != version.mtime || printed.bits != version.bits { return G.CHANGED; }
        case Force =>
      }
      if move.Fails? { return 1; }
      if disk.Some? && disk.value.Directory? {
        disk := Some(disk.value.(bytes := move.bytes, mtime := move.mtime));
      } else {
        disk := Some(staged);
      }
      return 0;
    }
  }

  class Activation {
    const utf8: G.Utf8
    const request: G.Request
    /** Attributes of the stat, bytes read so far, and the staged text and guard, as far as the call has come. */
    var seen: Option<G.Elements>
    var got: seq<Byte>
    var staged: Option<(G.Guard, string)>
    var renamed: bool
    var failure: Option<G.Failure>
    var done: bool

    constructor (utf8: G.Utf8, request: G.Request)
      ensures this.utf8 == utf8 && this.request == request && AsPhase(0) == G.Called
    {
      this.utf8, this.request := utf8, request;
      seen, got, staged, renamed, failure, done := None, [], None, false, None, false;
    }

    /** The fields as the phase of a call whose stat was at revision `at`. */
    function AsPhase(at: nat): G.Phase
      reads this
    {
      if done then G.Done(failure)
      else if renamed then G.Renamed
      else if staged.Some? then G.Staged(staged.value.0, staged.value.1, at)
      else if seen.Some? then G.Reading(seen.value, got, at)
      else G.Called
    }

    method Stop(f: G.Failure)
      modifies this
      ensures done && failure == Some(f)
    {
      done, failure := true, Some(f);
    }

    /** From the start of the call to its stat and the checks on it. */
    method OnStat(disk: G.Disk, at: nat)
      requires AsPhase(at) == G.Called
      modifies this
      ensures AsPhase(at) == G.AfterStat(request, disk, at)
    {
      match request
      case Write(content, guard) =>
        if guard.CreateIfAbsent? && disk.Some? { Stop(G.NotObserved); return; }
        if guard.ReplaceIfVersion? {
          if disk.None? { Stop(G.StaleVersion); return; }
          if G.ElementsOf(disk.value) != guard.version { Stop(G.StaleVersion); return; }
        }
        staged := Some((guard, content));
      case Edit(old_, _, _, expected) =>
        if old_ == "" { Stop(G.EditNotFound); return; }
        if disk.None? { Stop(G.Failure.NotFound); return; }
        if disk.value.Directory? { Stop(G.NotRegular); return; }
        if expected.Some? && G.ElementsOf(disk.value) != expected.value { Stop(G.StaleVersion); return; }
        seen, got := Some(G.ElementsOf(disk.value)), [];
    }

    method OnChunk(bytes: seq<Byte>, ghost at: nat)
      requires AsPhase(at).Reading?
      modifies this`got
      ensures AsPhase(at) == old(AsPhase(at)).(got := old(got) + bytes)
    {
      got := got + bytes;
    }

    /** From the end of the read to the staged text: probe, decode, match, replace, restore line endings. */
    method OnEndOfFile(ghost at: nat)
      requires AsPhase(at).Reading? && request.Edit? && request.old_ != ""
      modifies this
      ensures AsPhase(at) == G.AfterRead(utf8, request, old(seen).value, old(got), at)
      ensures AsPhase(at).Staged? ==> Rewrites(utf8.decode(old(got)), request.old_, request.new_, request.all, AsPhase(at).text)
    {
      var probe := new BinaryProbe();
      var binary := probe.Push(got);
      assert [] + got == got;
      if binary { Stop(G.NotText); return; }
      var raw := utf8.decode(got);
      var crlf := HasCrlf(raw);
      var before := NormalizeLf(raw);
      var matches := CountLiteral(before, request.old_);
      if matches == 0 { Stop(G.EditNotFound); return; }
      if matches > 1 && !request.all { Stop(G.AmbiguousEdit); return; }
      var after := ReplaceLiteral(before, request.old_, request.new_, request.all);
      var wire := if crlf then ToCrlf(after) else after;
      staged := Some((G.ReplaceIfVersion(seen.value), wire));
      EditRewrites(raw, request.old_, request.new_, request.all, wire);
    }

    /** Upload, publish and map the exit code, or the error of an exec whose outcome was lost. */
    method OnPublish(target: RemoteTarget, mtime: int, move: G.Move, lost: Option<G.Failure>, ghost at: nat)
      requires AsPhase(at).Staged?
      modifies this, target
      ensures var p := G.PublishScript(old(staged).value.0, old(target.disk),
                                       G.File(utf8.encode(old(staged).value.1), mtime, G.STAGED_MODE), move);
              target.disk == p.disk && AsPhase(at) == G.AfterPublish(p.code, lost)
    {
      var code := target.Publish(staged.value.0, G.File(utf8.encode(staged.value.1), mtime, G.STAGED_MODE), move);
      if lost.Some? { Stop(lost.value); return; }
      if code == 0 {
        renamed := true;
        return;
      }
      if code == G.EXISTS { Stop(G.NotObserved); return; }
      if code == G.CHANGED { Stop(G.StaleVersion); return; }
      Stop(G.IoError);
    }

    /** The stat after the rename, whose failure is the call's failure although the target was changed. */
    method OnFinalStat(failed: Option<G.Failure>, ghost at: nat)
      requires AsPhase(at).Renamed?
      modifies this
      ensures AsPhase(at) == G.Done(failed)
    {
      done, failure := true, failed;
    }
  }
}
