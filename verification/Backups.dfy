/** Rotating backups and the atomic install of the update client (src/updates.rs), over a directory
    seen as a map from names to contents. */
module Backups {
  import opened Bytes
  import opened Common

  type Content = seq<byte>

  /** The file itself, its numbered backups, and the temporary file of an install. */
  datatype Name = Live | Backup(n: nat) | Temp

  type Files = map<Name, Content>

  function Get(files: Files, name: Name): Option<Content> {
    if name in files then Some(files[name]) else None
  }

  /** Where a rotation takes the new content of a name from. */
  function Source(name: Name, keep: nat): Name {
    if name.Backup? && 1 <= name.n <= keep then (if name.n == 1 then Live else Backup(name.n - 1)) else name
  }

  function Slots(keep: nat): set<Name> { set i | 1 <= i <= keep :: Backup(i) }

  function Rotated(files: Files, keep: nat): Files {
    if keep == 0 || Live !in files then files
    else map name | name in files.Keys + Slots(keep) && Source(name, keep) in files :: files[Source(name, keep)]
  }

  function Installed(files: Files, content: Content): Files { files[Live := content] - {Temp} }

  /** One update: back up, then install. */
  function Updated(files: Files, content: Content, keep: nat): Files { Installed(Rotated(files, keep), content) }

  /** What goes wrong: removing the oldest backup and moving one up are tried and not insisted on; a failed
      copy, write or final rename ends the update, and the first two may leave part of a file behind. */
  datatype Faults = Faults(
    removal: bool,
    moves: set<nat>,
    copy: bool,
    copied: Option<Content>,
    write: bool,
    written: Option<Content>,
    rename: bool)

  predicate Fine(f: Faults) { !f.removal && f.moves == {} && !f.copy && !f.write && !f.rename }

  /** Nothing but the kept backups changes, and from the second on each is absent or holds what it or one
      numbered lower held. */
  ghost predicate OnlyBackupsMove(before: Files, after: Files, keep: nat) {
    (forall name: Name | !(name.Backup? && 1 <= name.n <= keep) :: Get(after, name) == Get(before, name)) &&
    (forall i | 2 <= i <= keep && Backup(i) in after :: OneOfLower(before, after, i))
  }

  ghost predicate OneOfLower(before: Files, after: Files, i: nat) {
    exists j | 1 <= j <= i :: Get(after, Backup(i)) == Get(before, Backup(j))
  }

  class Directory {
    var files: Files

    /** Each kept backup moves up by one, the oldest is dropped, and the file is copied to the first. */
    method RotateBackups(keep: nat, faults: Faults) returns (ok: bool)
      modifies this
      ensures ok <==> !(faults.copy && keep > 0 && Live in old(files))
      ensures OnlyBackupsMove(old(files), files, keep)
      ensures Fine(faults) ==> files == Rotated(old(files), keep)
    {
      hide OnlyBackupsMove, Halfway, Rotated;
      ghost var start := files;
      NothingMoved(start, keep);
      if keep == 0 || Live !in files {
        assert files == Rotated(start, keep) by { NotRotated(start, keep); }
        return true;
      }
      if Backup(keep) in files && !faults.removal {
        files := files - {Backup(keep)};
      }
      StartHalfway(start, keep);
      for n := keep downto 1
        invariant Fine(faults) ==> Halfway(start, files, keep, n)
        invariant OnlyBackupsMove(start, files, keep)
        invariant forall i | 1 <= i < n :: Get(files, Backup(i)) == Get(start, Backup(i))
        invariant Get(files, Backup(n)).Some? ==> Get(files, Backup(n)) == Get(start, Backup(n))
      {
        assert Get(files, Backup(n)) == Get(start, Backup(n));
        if Fine(faults) { HalfwayNext(start, files, keep, n); }
        if Backup(n) in files && n !in faults.moves {
          MovedUp(start, files, keep, n);
          files := files[Backup(n + 1) := files[Backup(n)]] - {Backup(n)};
        }
      }
      assert Get(files, Live) == Get(start, Live) by { LiveStays(start, files, keep); }
      if faults.copy {
        if faults.copied.Some? {
          FirstWritten(start, files, keep, faults.copied.value);
          files := files[Backup(1) := faults.copied.value];
        }
        return false;
      }
      FirstWritten(start, files, keep, files[Live]);
      if Fine(faults) { HalfwayDone(start, files, keep); }
      files := files[Backup(1) := files[Live]];
      return true;
    }

    /** The whole new content stands under the name at once; the temporary file is gone. A failure
        leaves everything but the temporary file as it was. */
    method InstallAtomic(content: Content, faults: Faults) returns (ok: bool)
      modifies this
      ensures ok <==> !faults.write && !faults.rename
      ensures ok ==> files == Installed(old(files), content)
      ensures !ok ==> files - {Temp} == old(files) - {Temp}
    {
      if faults.write {
        if faults.written.Some? {
          files := files[Temp := faults.written.value];
        }
        return false;
      }
      files := files[Temp := content];
      if faults.rename {
        return false;
      }
      files := files[Live := files[Temp]] - {Temp};
      return true;
    }

    /** Whatever fails, the file holds all of its old content or all of the new, and the answer says which. */
    method Update(content: Content, keep: nat, faults: Faults) returns (ok: bool)
      modifies this
      ensures Get(files, Live) == if ok then Some(content) else Get(old(files), Live)
      ensures Fine(faults) ==> ok && files == Updated(old(files), content, keep)
    {
      ok := RotateBackups(keep, faults);
      LiveStays(old(files), files, keep);
      if ok {
        ghost var rotated := files;
        ok := InstallAtomic(content, faults);
        if !ok { assert Get(files, Live) == Get(files - {Temp}, Live) == Get(rotated - {Temp}, Live); }
      }
    }
  }

  lemma NothingMoved(files: Files, keep: nat)
    ensures OnlyBackupsMove(files, files, keep)
    ensures OnlyBackupsMove(files, files - {Backup(keep)}, keep) || keep == 0
  {
    forall i: nat ensures Get(files, Backup(i)) == Get(files, Backup(i)) {}
    forall i | 2 <= i <= keep && Backup(i) in files ensures OneOfLower(files, files, i) {
      assert Get(files, Backup(i)) == Get(files, Backup(i));
    }
    var rest := files - {Backup(keep)};
    forall i | 2 <= i <= keep && Backup(i) in rest ensures OneOfLower(files, rest, i) {
      assert Get(rest, Backup(i)) == Get(files, Backup(i));
    }
  }

  lemma MovedUp(start: Files, before: Files, keep: nat, n: nat)
    requires OnlyBackupsMove(start, before, keep) && 1 <= n < keep && Backup(n) in before
    requires Get(before, Backup(n)) == Get(start, Backup(n))
    ensures OnlyBackupsMove(start, before[Backup(n + 1) := before[Backup(n)]] - {Backup(n)}, keep)
  {
    var after := before[Backup(n + 1) := before[Backup(n)]] - {Backup(n)};
    forall name: Name | !(name.Backup? && 1 <= name.n <= keep) ensures Get(after, name) == Get(start, name) {
      assert Get(before, name) == Get(start, name);
    }
    forall i | 2 <= i <= keep && Backup(i) in after ensures OneOfLower(start, after, i) {
      if i == n + 1 {
        assert Get(after, Backup(i)) == Get(start, Backup(n));
      } else {
        assert OneOfLower(start, before, i) && Get(after, Backup(i)) == Get(before, Backup(i));
      }
    }
  }

  lemma FirstWritten(start: Files, before: Files, keep: nat, content: Content)
    requires OnlyBackupsMove(start, before, keep) && keep >= 1
    ensures OnlyBackupsMove(start, before[Backup(1) := content], keep)
  {
    var after := before[Backup(1) := content];
    forall name: Name | !(name.Backup? && 1 <= name.n <= keep) ensures Get(after, name) == Get(start, name) {
      assert Get(before, name) == Get(start, name);
    }
    forall i | 2 <= i <= keep && Backup(i) in after ensures OneOfLower(start, after, i) {
      assert OneOfLower(start, before, i) && Get(after, Backup(i)) == Get(before, Backup(i));
    }
  }

  /** The rotation when backups n and above have been dealt with: n is free, those above have moved. */
  ghost function Midway(files: Files, keep: nat, n: nat, name: Name): Option<Content>
    requires 1 <= n <= keep
  {
    if name == Backup(n) then None
    else if name.Backup? && n < name.n <= keep then Get(files, Backup(name.n - 1))
    else Get(files, name)
  }

  ghost predicate Halfway(start: Files, files: Files, keep: nat, n: nat)
    requires 1 <= n <= keep
  {
    forall name :: Get(files, name) == Midway(start, keep, n, name)
  }

  lemma StartHalfway(start: Files, keep: nat)
    requires keep >= 1
    ensures Halfway(start, if Backup(keep) in start then start - {Backup(keep)} else start, keep, keep)
  {
  }

  lemma HalfwayNext(start: Files, files: Files, keep: nat, n: nat)
    requires 1 <= n < keep && Halfway(start, files, keep, n + 1)
    ensures Halfway(start, if Backup(n) in files then files[Backup(n + 1) := files[Backup(n)]] - {Backup(n)} else files, keep, n)
  {
    var after := if Backup(n) in files then files[Backup(n + 1) := files[Backup(n)]] - {Backup(n)} else files;
    assert Get(files, Backup(n)) == Midway(start, keep, n + 1, Backup(n));
    forall name ensures Get(after, name) == Midway(start, keep, n, name) {
      assert Get(files, name) == Midway(start, keep, n + 1, name);
    }
  }

  lemma HalfwayDone(start: Files, files: Files, keep: nat)
    requires keep >= 1 && Halfway(start, files, keep, 1) && Live in start && Live in files
    ensures files[Backup(1) := files[Live]] == Rotated(start, keep)
  {
    hide Rotated;
    var after := files[Backup(1) := files[Live]];
    assert Get(files, Live) == Midway(start, keep, 1, Live);
    forall name ensures Get(after, name) == Get(Rotated(start, keep), name) {
      RotatedGet(start, keep, name);
      assert Get(files, name) == Midway(start, keep, 1, name);
    }
    SameFiles(after, Rotated(start, keep));
  }

  lemma NotRotated(files: Files, keep: nat)
    requires keep == 0 || Live !in files
    ensures Rotated(files, keep) == files
  {
  }

  lemma LiveStays(before: Files, after: Files, keep: nat)
    requires OnlyBackupsMove(before, after, keep)
    ensures Get(after, Live) == Get(before, Live)
  {
  }

  lemma RotatedGet(files: Files, keep: nat, name: Name)
    requires keep > 0 && Live in files
    ensures Get(Rotated(files, keep), name) == Get(files, Source(name, keep))
  {
    if Source(name, keep) in files {
      assert name in files.Keys + Slots(keep);
    }
  }

  lemma SameFiles(a: Files, b: Files)
    requires forall name :: Get(a, name) == Get(b, name)
    ensures a == b
  {
    forall name ensures name in a <==> name in b { assert Get(a, name) == Get(b, name); }
    forall name | name in a ensures a[name] == b[name] { assert Get(a, name) == Get(b, name); }
  }

  // ---- Runs of updates ----

  function Run(files: Files, contents: seq<Content>, keep: nat): Files {
    if contents == [] then files
    else Updated(Run(files, contents[..|contents| - 1], keep), contents[|contents| - 1], keep)
  }

  /** Everything the name has held, oldest first. */
  function Past(files: Files, contents: seq<Content>): seq<Content> {
    (if Live in files then [files[Live]] else []) + contents
  }

  /** The file is generation 0, backup i generation i. */
  function Generation(i: nat): Name { if i == 0 then Live else Backup(i) }

  /** What generation i holds after a run: what was installed i updates earlier, or, further back, a
      backup from before the run that has moved along. */
  function Expected(files: Files, past: seq<Content>, i: nat): Option<Content>
    requires past != []
  {
    if i < |past| then Some(past[|past| - 1 - i]) else Get(files, Backup(i - |past| + 1))
  }

  lemma ExpectedNext(files: Files, past: seq<Content>, content: Content, i: nat)
    requires past != []
    ensures Expected(files, past + [content], i) == if i == 0 then Some(content) else Expected(files, past, i - 1)
  {
  }

  lemma UpdatedGet(files: Files, content: Content, keep: nat, i: nat)
    requires keep > 0 && Live in files
    ensures Get(Updated(files, content, keep), Generation(i)) ==
      if i == 0 then Some(content) else if i <= keep then Get(files, Generation(i - 1)) else Get(files, Generation(i))
  {
    RotatedGet(files, keep, Generation(i));
  }

  /** Over any run of updates that keeps N >= 1 backups, from any directory: generation i <= N is the
      content of i updates earlier, and no backup beyond N is touched. */
  lemma {:induction false} Generations(files: Files, contents: seq<Content>, keep: nat, i: nat)
    requires keep > 0 && Past(files, contents) != []
    ensures Live in Run(files, contents, keep)
    ensures i <= keep ==> Get(Run(files, contents, keep), Generation(i)) == Expected(files, Past(files, contents), i)
    ensures i > keep ==> Get(Run(files, contents, keep), Generation(i)) == Get(files, Generation(i))
  {
    if contents != [] {
      hide Updated, Get, Run, Generation;
      var k := |contents| - 1;
      var init, content := contents[..k], contents[k];
      var before := Run(files, init, keep);
      assert contents == init + [content];
      RunNext(files, init, content, keep);
      UpdatedLive(before, content, keep);
      if Past(files, init) != [] {
        PastNext(files, init, content);
        hide Past;
        Generations(files, init, keep, i);
        if i > 0 { Generations(files, init, keep, i - 1); }
        UpdatedGet(before, content, keep, i);
        ExpectedNext(files, Past(files, init), content, i);
        hide Expected;
      } else {
        FirstInstall(files, content, keep, i);
      }
    }
  }

  lemma RunNext(files: Files, contents: seq<Content>, content: Content, keep: nat)
    ensures Run(files, [], keep) == files
    ensures Run(files, contents + [content], keep) == Updated(Run(files, contents, keep), content, keep)
  {
    assert (contents + [content])[..|contents|] == contents;
  }

  lemma PastNext(files: Files, contents: seq<Content>, content: Content)
    ensures Past(files, contents + [content]) == Past(files, contents) + [content]
  {
  }

  lemma UpdatedLive(files: Files, content: Content, keep: nat)
    ensures Live in Updated(files, content, keep)
  {
  }

  lemma FirstInstall(files: Files, content: Content, keep: nat, i: nat)
    requires Live !in files
    ensures Get(Updated(files, content, keep), Generation(i)) == if i == 0 then Some(content) else Get(files, Backup(i))
  {
  }

  /** With no backup at the start: backup i exists exactly up to the number of updates that replaced
      a file, N at most, and holds what the file held i updates earlier. */
  lemma FromNoBackups(files: Files, contents: seq<Content>, keep: nat, i: nat)
    requires keep > 0 && i > 0 && forall n :: Backup(n) !in files
    ensures var past, now := Past(files, contents), Run(files, contents, keep);
      Get(now, Backup(i)) == if i <= keep && i < |past| then Some(past[|past| - 1 - i]) else None
    ensures contents != [] ==> Get(Run(files, contents, keep), Live) == Some(contents[|contents| - 1])
  {
    if Past(files, contents) != [] {
      Generations(files, contents, keep, i);
      Generations(files, contents, keep, 0);
    }
  }

  /** Keeping none: the backups of an earlier setting stay as they are. */
  lemma {:induction false} KeepNone(files: Files, contents: seq<Content>, name: Name)
    requires contents != []
    ensures Get(Run(files, contents, 0), name) ==
      if name == Live then Some(contents[|contents| - 1]) else if name == Temp then None else Get(files, name)
  {
    var k := |contents| - 1;
    if k > 0 {
      KeepNone(files, contents[..k], name);
    } else {
      assert contents[..k] == [];
    }
  }
}
