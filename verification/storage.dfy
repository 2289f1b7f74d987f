/** Writing a message's artifacts under the target directory: the raw message as
    `{msg_id}.eml`, and its attachments in a directory named after the message. */
module Storage {
  import opened Results
  import opened FileSystem
  import opened GmailClient

  /** The tree after a sequence of file operations, and whether they all succeeded. */
  datatype Written = Written(tree: Tree, status: Outcome<FsError>)

  /** `target_dir / f"{msg_id}.eml"`. */
  function EmlPath(targetDir: Path, msgId: string): Path
  {
    Child(targetDir, msgId + ".eml")
  }

  /** `target_dir / msg_id`. */
  function AttachmentDir(targetDir: Path, msgId: string): Path
  {
    Child(targetDir, msgId)
  }

  /** Where one attachment is written: `att_dir / att["filename"]`, resolved. */
  function Destination(cwd: Location, dir: Path, att: Attachment): Location
  {
    Resolve(cwd, Child(dir, att.filename))
  }

  /** The effect of `save_eml`: create the target directory, then write the raw bytes. */
  function SaveEmlEffect(t: Tree, cwd: Location, targetDir: Path, msgId: string, raw: Bytes): (w: Written)
    requires IsDir(t, Root)
    ensures w.status.Pass? ==> Resolve(cwd, EmlPath(targetDir, msgId)) in w.tree
    ensures w.status.Pass? ==> w.tree[Resolve(cwd, EmlPath(targetDir, msgId))] == File(raw)
    ensures forall x :: x in t && x != Resolve(cwd, EmlPath(targetDir, msgId)) ==> x in w.tree && w.tree[x] == t[x]
    ensures forall x :: x in w.tree && x !in t ==>
      x == Resolve(cwd, EmlPath(targetDir, msgId)) || (w.tree[x] == Dir && OnPathTo(x, Resolve(cwd, targetDir)))
  {
    var made := MakeDirsResult(t, Resolve(cwd, targetDir));
    if made.Err? then Written(t, Fail(made.error))
    else
      var wrote := WriteResult(made.value, Resolve(cwd, EmlPath(targetDir, msgId)), raw);
      Written(After(made.value, wrote), StatusOf(wrote))
  }

  /** `save_eml(target_dir, msg_id, raw)`. */
  method SaveEml(disk: Disk, targetDir: Path, msgId: string, raw: Bytes) returns (r: Outcome<FsError>)
    requires disk.Valid()
    modifies disk
    ensures disk.Valid()
    ensures Written(disk.tree, r) == SaveEmlEffect(old(disk.tree), disk.cwd, targetDir, msgId, raw)
  {
    r := disk.MakeDirs(targetDir);
    if r.Fail? {
      return;
    }
    r := disk.WriteBytes(EmlPath(targetDir, msgId), raw);
  }

  /** Writing the attachments one after the other into `dir`; the first failure ends it. */
  function WriteEach(t: Tree, cwd: Location, dir: Path, atts: seq<Attachment>): Written
    decreases |atts|
  {
    if atts == [] then Written(t, Pass)
    else
      var before := WriteEach(t, cwd, dir, atts[..|atts| - 1]);
      var last := atts[|atts| - 1];
      if before.status.Fail? then before
      else
        var wrote := WriteResult(before.tree, Destination(cwd, dir, last), last.data);
        Written(After(before.tree, wrote), StatusOf(wrote))
  }

  /** One more attachment: it is written unless an earlier write failed. */
  lemma WriteEachSnoc(t: Tree, cwd: Location, dir: Path, atts: seq<Attachment>, a: Attachment)
    ensures var before := WriteEach(t, cwd, dir, atts);
      WriteEach(t, cwd, dir, atts + [a]) ==
        if before.status.Fail? then before
        else
          var wrote := WriteResult(before.tree, Destination(cwd, dir, a), a.data);
          Written(After(before.tree, wrote), StatusOf(wrote))
  {
    assert (atts + [a])[..|atts|] == atts;
  }

  /** The effect of `save_attachments`: create `target_dir/msg_id`, then write each attachment. */
  function SaveAttachmentsEffect(t: Tree, cwd: Location, targetDir: Path, msgId: string, atts: seq<Attachment>): (w: Written)
    requires IsDir(t, Root)
    ensures atts == [] ==> w.status == StatusOf(MakeDirsResult(t, Resolve(cwd, AttachmentDir(targetDir, msgId))))
    ensures atts == [] ==> w.tree == After(t, MakeDirsResult(t, Resolve(cwd, AttachmentDir(targetDir, msgId))))
    ensures atts == [] && w.status.Pass? ==> IsDir(w.tree, Resolve(cwd, AttachmentDir(targetDir, msgId)))
  {
    var dir := AttachmentDir(targetDir, msgId);
    var made := MakeDirsResult(t, Resolve(cwd, dir));
    if made.Err? then Written(t, Fail(made.error))
    else WriteEach(made.value, cwd, dir, atts)
  }

  /** After a successful run, each path holds the data of the LAST attachment written to it:
      a later attachment with the same filename overwrites an earlier one. */
  lemma {:induction false} LaterAttachmentWins(t: Tree, cwd: Location, dir: Path, atts: seq<Attachment>, i: nat)
    requires WriteEach(t, cwd, dir, atts).status.Pass?
    requires i < |atts|
    requires forall j :: i < j < |atts| ==> Destination(cwd, dir, atts[j]) != Destination(cwd, dir, atts[i])
    ensures Destination(cwd, dir, atts[i]) in WriteEach(t, cwd, dir, atts).tree
    ensures WriteEach(t, cwd, dir, atts).tree[Destination(cwd, dir, atts[i])] == File(atts[i].data)
    decreases |atts|
  {
    var init := atts[..|atts| - 1];
    if i < |atts| - 1 {
      assert init[i] == atts[i];
      forall j | i < j < |init|
        ensures Destination(cwd, dir, init[j]) != Destination(cwd, dir, init[i])
      {
        assert init[j] == atts[j];
      }
      LaterAttachmentWins(t, cwd, dir, init, i);
    }
  }

  /** Writing attachments changes no path other than their destinations. */
  lemma {:induction false} WriteEachKeepsOthers(t: Tree, cwd: Location, dir: Path, atts: seq<Attachment>, x: Path)
    requires x in t
    requires forall i :: 0 <= i < |atts| ==> Destination(cwd, dir, atts[i]) != x
    ensures x in WriteEach(t, cwd, dir, atts).tree && WriteEach(t, cwd, dir, atts).tree[x] == t[x]
    decreases |atts|
  {
    if atts != [] {
      WriteEachKeepsOthers(t, cwd, dir, atts[..|atts| - 1], x);
    }
  }

  /** Writing attachments adds no path other than their destinations. */
  lemma {:induction false} WriteEachAddsDestinations(t: Tree, cwd: Location, dir: Path, atts: seq<Attachment>, x: Path)
    requires x in WriteEach(t, cwd, dir, atts).tree && x !in t
    ensures exists i :: 0 <= i < |atts| && Destination(cwd, dir, atts[i]) == x
    decreases |atts|
  {
    if atts != [] {
      var init := atts[..|atts| - 1];
      if x in WriteEach(t, cwd, dir, init).tree {
        WriteEachAddsDestinations(t, cwd, dir, init, x);
        var i :| 0 <= i < |init| && Destination(cwd, dir, init[i]) == x;
        assert atts[i] == init[i];
      } else {
        assert Destination(cwd, dir, atts[|atts| - 1]) == x;
      }
    }
  }

  /** A failure leaves the later attachments unwritten: the first error stands. */
  lemma {:induction false} WriteEachKeepsFailure(t: Tree, cwd: Location, dir: Path, atts: seq<Attachment>, more: seq<Attachment>)
    requires WriteEach(t, cwd, dir, atts).status.Fail?
    ensures WriteEach(t, cwd, dir, atts + more) == WriteEach(t, cwd, dir, atts)
    decreases |more|
  {
    if more == [] {
      assert atts + more == atts;
    } else {
      var init := more[..|more| - 1];
      WriteEachKeepsFailure(t, cwd, dir, atts, init);
      assert (atts + more)[..|atts + more| - 1] == atts + init;
    }
  }

  /** A filename that is a relative path without ".." is written inside the attachment directory. */
  lemma StaysInside(cwd: Location, dir: Path, att: Attachment)
    requires !Parse(att.filename).absolute && Parse(att.filename).parts != []
    requires forall i :: 0 <= i < |Parse(att.filename).parts| ==> Parse(att.filename).parts[i] != ".."
    ensures |Destination(cwd, dir, att).parts| > |Resolve(cwd, dir).parts|
    ensures Destination(cwd, dir, att).parts[..|Resolve(cwd, dir).parts|] == Resolve(cwd, dir).parts
  {
    ResolveChild(cwd, dir, att.filename);
  }

  /** A filename that is an absolute path is written at that path, wherever the directory is. */
  lemma AbsoluteFilenameIgnoresDirectory(cwd: Location, dir: Path, att: Attachment)
    requires Parse(att.filename).absolute
    ensures Destination(cwd, dir, att) == Resolve(cwd, Parse(att.filename))
  {
  }

  /** The loop of `save_attachments`, one attachment further after the ones before it succeeded. */
  lemma WriteEachStep(t: Tree, cwd: Location, dir: Path, atts: seq<Attachment>, i: nat, now: Tree)
    requires i < |atts|
    requires WriteEach(t, cwd, dir, atts[..i]) == Written(now, Pass)
    ensures var wrote := WriteResult(now, Destination(cwd, dir, atts[i]), atts[i].data);
      WriteEach(t, cwd, dir, atts[..i + 1]) == Written(After(now, wrote), StatusOf(wrote))
  {
    assert atts[..i + 1] == atts[..i] + [atts[i]];
    WriteEachSnoc(t, cwd, dir, atts[..i], atts[i]);
  }

  /** A write that failed ends the loop: the attachments after it change nothing. */
  lemma WriteEachStop(t: Tree, cwd: Location, dir: Path, atts: seq<Attachment>, i: nat)
    requires i <= |atts|
    requires WriteEach(t, cwd, dir, atts[..i]).status.Fail?
    ensures WriteEach(t, cwd, dir, atts) == WriteEach(t, cwd, dir, atts[..i])
  {
    assert atts == atts[..i] + atts[i..];
    WriteEachKeepsFailure(t, cwd, dir, atts[..i], atts[i..]);
  }

  /** The loop of `save_attachments`: write each attachment into `dir`, stopping at the first failure. */
  method WriteAttachments(disk: Disk, dir: Path, atts: seq<Attachment>) returns (r: Outcome<FsError>)
    requires disk.Valid()
    modifies disk
    ensures disk.Valid()
    ensures Written(disk.tree, r) == WriteEach(old(disk.tree), disk.cwd, dir, atts)
  {
    ghost var start := disk.tree;
    r := Pass;
    for i := 0 to |atts|
      invariant disk.Valid()
      invariant WriteEach(start, disk.cwd, dir, atts[..i]) == Written(disk.tree, Pass)
      invariant r == Pass
    {
      WriteEachStep(start, disk.cwd, dir, atts, i, disk.tree);
      r := disk.WriteBytes(Child(dir, atts[i].filename), atts[i].data);
      if r.Fail? {
        WriteEachStop(start, disk.cwd, dir, atts, i + 1);
        return;
      }
    }
    assert atts[..|atts|] == atts;
  }

  /** `save_attachments(target_dir, msg_id, attachments)`. */
  method SaveAttachments(disk: Disk, targetDir: Path, msgId: string, atts: seq<Attachment>) returns (r: Outcome<FsError>)
    requires disk.Valid()
    modifies disk
    ensures disk.Valid()
    ensures Written(disk.tree, r) == SaveAttachmentsEffect(old(disk.tree), disk.cwd, targetDir, msgId, atts)
  {
    var dir := AttachmentDir(targetDir, msgId);
    r := disk.MakeDirs(dir);
    if r.Fail? {
      return;
    }
    r := WriteAttachments(disk, dir, atts);
  }
}
