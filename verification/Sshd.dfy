// The sshd step: install a drop-in, activate it, and put the old one back when that fails.
module Sshd {
  import opened Wrappers

  datatype Special = SetUid | SetGid | Sticky

  /** A regular file: permission bits and special bits apart. */
  datatype FileState = FileState(content: string, perm: nat, special: set<Special>, owner: string, group: string)

  /** What the daemon read at a reload, and which checks had passed on those very files. */
  datatype ReloadEvent = ReloadEvent(file: Option<FileState>, parsed: bool, keyAuth: bool)

  /** One answer of the host: its report, whether the action landed, and the special bits a chown leaves. */
  datatype Answer = Answer(ok: bool, took: bool, keeps: set<Special>)

  predicate Landed(a: Answer) { a.ok || a.took }

  /** The i-th answer; with none left the connection is gone and nothing lands. */
  function At(answers: seq<Answer>, i: nat): Answer {
    if i < |answers| then answers[i] else Answer(false, false, {})
  }

  /** A step is skipped, refused before any change, applied, or failed in one of three ways. */
  datatype Outcome = Skipped | Refused | Applied | NotInstalled | Undone | NotRestored

  const ROOT: string := "root"

  /** The drop-in already holds the rendered text under the declared mode. */
  predicate Aligned(file: Option<FileState>, content: string, perm: nat, special: set<Special>) {
    file.Some? && file.value.content == content && file.value.perm == perm && file.value.special == special
  }

  /** The one way round the restore: the fifth action, the move of an accepted candidate, lands but is reported as failed. */
  predicate MoveLost(answers: seq<Answer>) {
    && At(answers, 0).ok && At(answers, 1).ok && At(answers, 2).ok && At(answers, 3).ok
    && !At(answers, 4).ok && At(answers, 4).took
  }

  class Host {
    var file: Option<FileState>
    var staged: Option<FileState>
    /** The drop-in the running daemon has read. */
    var running: Option<FileState>
    var answers: seq<Answer>

    /** Checks passed on the files as they are, the last candidate sshd accepted, and all reloads so far. */
    ghost var parsed: bool
    ghost var keyAuth: bool
    ghost var agreed: bool
    ghost var candidate: Option<FileState>
    ghost var reloads: seq<ReloadEvent>

    constructor (file: Option<FileState>, running: Option<FileState>, answers: seq<Answer>)
      ensures this.file == file && this.running == running && this.answers == answers && reloads == []
    {
      this.file, this.running, this.answers := file, running, answers;
      staged := None;
      parsed, keyAuth, agreed, candidate, reloads := false, false, false, None, [];
    }

    /** The host answers the next action. */
    method Ask() returns (a: Answer)
      modifies this`answers
      ensures a == At(old(answers), 0)
      ensures answers == if old(answers) == [] then [] else old(answers)[1..]
    {
      if answers == [] { return Answer(false, false, {}); }
      a := answers[0];
      answers := answers[1..];
    }

    /** Root writes the file afresh with the given mode. */
    method WriteDest(content: string, perm: nat, special: set<Special>) returns (ok: bool)
      modifies this`file, this`answers, this`parsed, this`keyAuth
      ensures ok ==> file == Some(FileState(content, perm, special, ROOT, ROOT))
    {
      var a := Ask();
      if Landed(a) {
        file := Some(FileState(content, perm, special, ROOT, ROOT));
        parsed, keyAuth := false, false;
      }
      ok := a.ok;
    }

    /** Changing the owner may clear special bits. */
    method Chown(owner: string, group: string) returns (ok: bool)
      modifies this`file, this`answers, this`parsed, this`keyAuth
      ensures old(file).None? ==> file.None?
      ensures old(file).Some? ==> file.Some? && file.value == old(file).value.(special := file.value.special, owner := file.value.owner, group := file.value.group)
      ensures ok && old(file).Some? ==> file.value.owner == owner && file.value.group == group && file.value.special <= old(file).value.special
    {
      var a := Ask();
      if Landed(a) && file.Some? {
        file := Some(file.value.(owner := owner, group := group, special := file.value.special * a.keeps));
        parsed, keyAuth := false, false;
      }
      ok := a.ok;
    }

    method Chmod(perm: nat, special: set<Special>) returns (ok: bool)
      modifies this`file, this`answers, this`parsed, this`keyAuth
      ensures ok && old(file).Some? ==> file == Some(old(file).value.(perm := perm, special := special))
    {
      var a := Ask();
      if Landed(a) && file.Some? {
        file := Some(file.value.(perm := perm, special := special));
        parsed, keyAuth := false, false;
      }
      ok := a.ok;
    }

    method Remove() returns (ok: bool)
      modifies this`file, this`answers, this`parsed, this`keyAuth
      ensures ok ==> file == None
    {
      var a := Ask();
      if Landed(a) {
        file := None;
        parsed, keyAuth := false, false;
      }
      ok := a.ok;
    }

    /** Puts a snapshot back: content, owner, permission bits and, after the chown, the special bits. */
    method RestoreFileSnapshot(before: Option<FileState>) returns (ok: bool)
      modifies this`file, this`answers, this`parsed, this`keyAuth
      ensures ok ==> file == before
    {
      if before.None? {
        ok := Remove();
        return;
      }
      var snap := before.value;
      if snap.owner == "" || snap.group == "" { return false; }
      var directory := Ask();
      if !directory.ok { return false; }
      ok := WriteDest(snap.content, snap.perm, snap.special);
      if !ok { return; }
      ok := Chown(snap.owner, snap.group);
      if !ok { return; }
      if snap.special != {} {
        ok := Chmod(snap.perm, snap.special);
      } else {
        assert file.value.special == {};
      }
    }

    /** Asks sshd to parse the files on disk. */
    method CheckMainConfig() returns (ok: bool)
      modifies this`answers, this`parsed
      ensures ok ==> parsed
      ensures !ok ==> parsed == old(parsed)
    {
      var a := Ask();
      if a.ok { parsed := true; }
      ok := a.ok;
    }

    /** Reads the configuration the files on disk would give and refuses one without key authentication. */
    method AssertKeyAuthSurvives() returns (ok: bool)
      modifies this`answers, this`keyAuth
      ensures ok ==> keyAuth
      ensures !ok ==> keyAuth == old(keyAuth)
    {
      var read := Ask();
      if !read.ok { return false; }
      var verdict := Ask();
      if verdict.ok { keyAuth := true; }
      ok := verdict.ok;
    }

    method Reload() returns (ok: bool)
      modifies this`running, this`answers, this`reloads, this`agreed
      ensures ok ==> running == file
      ensures reloads == old(reloads) + [ReloadEvent(file, parsed, keyAuth)] && !agreed
    {
      var a := Ask();
      agreed := false;
      if Landed(a) { running := file; }
      reloads := reloads + [ReloadEvent(file, parsed, keyAuth)];
      ok := a.ok;
    }

    /** Compares the effective policy with the declared one, overall and for each context. */
    method VerifyEffective(contexts: nat) returns (ok: bool)
      modifies this`answers, this`agreed
      ensures ok ==> agreed
    {
      for i := 0 to contexts + 1
      {
        var read := Ask();
        if !read.ok { return false; }
        var agrees := Ask();
        if !agrees.ok { return false; }
      }
      agreed := true;
      ok := true;
    }

    /** Stages the candidate, has sshd check it alone, and moves it into place. */
    method Install(content: string, perm: nat, special: set<Special>) returns (ok: bool)
      modifies this`file, this`staged, this`answers, this`parsed, this`keyAuth, this`candidate
      ensures ok ==> file == Some(FileState(content, perm, special, ROOT, ROOT)) && !parsed && !keyAuth
      ensures ok <==> At(old(answers), 0).ok && At(old(answers), 1).ok && At(old(answers), 2).ok
      ensures !ok ==> file == if At(old(answers), 0).ok && At(old(answers), 1).ok && At(old(answers), 2).took
                              then Some(FileState(content, perm, special, ROOT, ROOT)) else old(file)
      ensures file != old(file) ==> candidate == file
    {
      var write := Ask();
      if Landed(write) { staged := Some(FileState(content, perm, special, ROOT, ROOT)); }
      if !write.ok { return false; }
      var check := Ask();
      ok := check.ok;
      if ok {
        candidate := staged;
        var move := Ask();
        if Landed(move) {
          file, staged := staged, None;
          parsed, keyAuth := false, false;
        }
        ok := move.ok;
      }
      var clean := Ask();
      if Landed(clean) { staged := None; }
    }

    /** Parse check, key-authentication check, reload, and the effective policy; notes whether it reached the reload. */
    method Activate(contexts: nat) returns (ok: bool, reloaded: bool)
      modifies this`running, this`answers, this`parsed, this`keyAuth, this`reloads, this`agreed
      ensures ok ==> reloaded && running == file && agreed
      ensures !reloaded ==> running == old(running) && reloads == old(reloads)
      ensures reloaded ==> reloads == old(reloads) + [ReloadEvent(file, true, true)]
    {
      reloaded := false;
      ok := CheckMainConfig();
      if !ok { return; }
      ok := AssertKeyAuthSurvives();
      if !ok { return; }
      reloaded := true;
      ok := Reload();
      if !ok { return; }
      ok := VerifyEffective(contexts);
    }

    /** Restores the file and, if the daemon may have read the new one, reloads it after a parse check. */
    method RestorePrevious(before: Option<FileState>, reloaded: bool) returns (ok: bool)
      modifies this`file, this`running, this`answers, this`parsed, this`keyAuth, this`reloads, this`agreed
      ensures ok ==> file == before
      ensures ok && reloaded ==> running == before
      ensures !reloaded ==> running == old(running) && reloads == old(reloads)
      ensures reloads == old(reloads) || exists keys :: reloads == old(reloads) + [ReloadEvent(before, true, keys)]
    {
      ok := RestoreFileSnapshot(before);
      if !ok || !reloaded { return; }
      ok := CheckMainConfig();
      if !ok { return; }
      ghost var keys := keyAuth;
      ok := Reload();
      assert reloads == old(reloads) + [ReloadEvent(before, true, keys)];
    }

    /** Every reload since `n` was of the restored file, or of files that had passed both checks. */
    ghost predicate CheckedReloads(n: nat, before: Option<FileState>)
      reads this
    {
      n <= |reloads| && forall i :: n <= i < |reloads| ==>
        reloads[i].parsed && (reloads[i].keyAuth || reloads[i].file == before)
    }

    /** Installs and activates the rendered drop-in, or puts everything back. */
    method Apply(content: string, perm: nat, special: set<Special>, contexts: nat) returns (r: Outcome)
      modifies this
      ensures r.Skipped? || r.Refused? ==> file == old(file) && running == old(running) && reloads == old(reloads)
      ensures r.Skipped? || r.Applied? ==> file.Some? && file.value.content == content
                                           && file.value.perm == perm && file.value.special == special
      ensures r.Applied? ==> running == file && (file != old(file) ==> candidate == file)
      ensures r.Skipped? || r.Applied? ==> agreed
      ensures r.NotInstalled? ==> running == old(running) && reloads == old(reloads)
      ensures r.Refused? || r.NotInstalled? || r.Undone? ==>
                (file == old(file) <==> Aligned(old(file), content, perm, special) || !MoveLost(old(answers)))
      ensures !Aligned(old(file), content, perm, special) && MoveLost(old(answers)) ==>
                r.NotInstalled? && file == Some(FileState(content, perm, special, ROOT, ROOT))
      ensures r.Undone? ==> file == old(file)
      ensures r.Undone? ==> (running == old(running) && reloads == old(reloads)) || running == old(file)
      ensures CheckedReloads(|old(reloads)|, old(file))
    {
      var prepared := Ask();
      if !prepared.ok { return Refused; }
      var snapshot := Ask();
      if !snapshot.ok { return Refused; }
      var before := file;
      if Aligned(before, content, perm, special) {
        var effective := VerifyEffective(contexts);
        if effective { return Skipped; }
      } else {
        var installed := Install(content, perm, special);
        if !installed { return NotInstalled; }
      }
      var ok, reloaded := Activate(contexts);
      if ok { return Applied; }
      ok := RestorePrevious(before, reloaded);
      r := if ok then Undone else NotRestored;
    }
  }

  /** From every file that is not aligned, the lost move leaves the new drop-in where the old one was, unread by the daemon. */
  method LostMoveKeepsNewFile(before: Option<FileState>, running: Option<FileState>, content: string, perm: nat,
                              special: set<Special>, contexts: nat) returns (host: Host, r: Outcome)
    requires !Aligned(before, content, perm, special)
    ensures r.NotInstalled? && host.running == running && host.reloads == []
    ensures host.file == Some(FileState(content, perm, special, ROOT, ROOT)) && host.file != before
  {
    var done, lost := Answer(true, true, {}), Answer(false, true, {});
    host := new Host(before, running, [done, done, done, done, lost, done]);
    r := host.Apply(content, perm, special, contexts);
  }
}
