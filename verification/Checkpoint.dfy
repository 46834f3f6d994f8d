/**
 File checkpoints: snapshots taken before a turn edits files, restored later as one unit, with the
 files already restored rolled back when a later one fails.

 Every write and every read may fail; a failed write leaves its target as it was, which is what
 writing a temporary file and renaming it provides. Only file contents are modelled.
 */
module Checkpoint {
  import opened Json
  import opened Text

  type Bytes(==, !new)
  type Files = map<string, Bytes>

  /** A file as the metadata names it; old metadata lacks `existed`. */
  datatype Entry = Entry(path: string, existed: Option<bool>)
  datatype Meta = Meta(turnId: string, createdAt: int, files: seq<Entry>)
  datatype Decoded = Corrupted | NoFilesArray | Described(files: seq<Entry>)

  /** How metadata is written to a file and what reading any file as metadata gives. */
  datatype MetaCodec = MetaCodec(encode: Meta -> Bytes, decode: Bytes -> Decoded)

  ghost predicate Decodes(codec: MetaCodec) {
    forall m: Meta :: codec.decode(codec.encode(m)) == Described(m.files)
  }

  const META: string := ".checkpoint.json"

  function Lookup(files: Files, path: string): Option<Bytes> {
    if path in files then Some(files[path]) else None
  }

  // ----- Names ----------------------------------------------------------------------------------

  predicate IsUnsafe(c: char) { c in "<>:\"|?*" }

  function SafeFileName(path: string): (name: string)
    ensures |name| == |path|
    ensures forall i :: 0 <= i < |path| ==> name[i] == if IsUnsafe(path[i]) then '_' else path[i]
  {
    seq(|path|, i requires 0 <= i < |path| => if IsUnsafe(path[i]) then '_' else path[i])
  }

  /** A relative path that does not leave its root. */
  predicate Inside(path: string) { path != "" && !StartsWith(path, "..") && path[0] != '/' }

  /** What resolving a path against the project root promises. */
  ghost predicate Resolves(resolve: string -> Option<string>) {
    forall p :: resolve(p).Some? ==> Inside(resolve(p).value) && resolve(resolve(p).value) == resolve(p)
  }

  /** Where a snapshot lives in its turn directory. */
  function SourceName(path: string): Option<string> {
    var name := SafeFileName(path);
    if Inside(name) then Some(name) else None
  }

  /** The source path of a resolved target is never refused. */
  lemma SourceNameIsInside(path: string)
    requires Inside(path)
    ensures SourceName(path) == Some(SafeFileName(path))
  {
  }

  // ----- What a checkpoint holds ----------------------------------------------------------------

  /** The snapshots of the recorded files that existed, written in order under their safe names. */
  function Snapshots(files: Files, entries: seq<Entry>): Files {
    if entries == [] then map[]
    else
      var earlier := Snapshots(files, entries[..|entries| - 1]);
      var e := entries[|entries| - 1];
      if e.existed == Some(true) && e.path in files then earlier[SafeFileName(e.path) := files[e.path]] else earlier
  }

  function TurnDir(codec: MetaCodec, files: Files, meta: Meta): Files {
    Snapshots(files, meta.files)[META := codec.encode(meta)]
  }

  /** The entries tell the truth about the files they were recorded from. */
  ghost predicate Recorded(files: Files, entries: seq<Entry>) {
    forall i :: 0 <= i < |entries| ==>
      entries[i].existed == Some(entries[i].path in files) && Inside(entries[i].path)
  }

  /** Every snapshot that the entries name is there. */
  ghost predicate SnapshotsPresent(dir: Files, entries: seq<Entry>) {
    forall i :: 0 <= i < |entries| && entries[i].existed != Some(false) ==> SafeFileName(entries[i].path) in dir
  }

  lemma {:induction false} SnapshotsHaveEntries(files: Files, entries: seq<Entry>)
    requires Recorded(files, entries)
    ensures SnapshotsPresent(Snapshots(files, entries), entries)
  {
    if entries != [] {
      var front := entries[..|entries| - 1];
      assert Recorded(files, front);
      SnapshotsHaveEntries(files, front);
      forall i | 0 <= i < |entries| && entries[i].existed != Some(false)
        ensures SafeFileName(entries[i].path) in Snapshots(files, entries)
      {
        if i < |front| {
          assert front[i] == entries[i];
        }
      }
    }
  }

  // ----- What a restore does --------------------------------------------------------------------

  datatype Plan = Plan(path: string, snapshot: Option<Bytes>, previous: Option<Bytes>)

  function Applied(files: Files, plan: Plan): Files {
    if plan.snapshot.Some? then files[plan.path := plan.snapshot.value] else files - {plan.path}
  }

  /** The project after the plans were carried out in order. */
  function AppliedAll(files: Files, plans: seq<Plan>): Files {
    if plans == [] then files
    else Applied(AppliedAll(files, plans[..|plans| - 1]), plans[|plans| - 1])
  }

  /** The project after undoing one plan. */
  function Undone(files: Files, plan: Plan): Files {
    if plan.previous.Some? then files[plan.path := plan.previous.value] else files - {plan.path}
  }

  function PlanFor(files: Files, dir: Files, target: string, e: Entry): Plan {
    Plan(target, if e.existed == Some(false) then None else Lookup(dir, SafeFileName(target)), Lookup(files, target))
  }

  function Paths(plans: seq<Plan>): (r: seq<string>)
    ensures |r| == |plans|
    ensures forall i :: 0 <= i < |r| ==> r[i] == plans[i].path
  {
    seq(|plans|, i requires 0 <= i < |plans| => plans[i].path)
  }

  lemma {:induction false} AppliedElsewhere(files: Files, plans: seq<Plan>, p: string)
    requires p !in Paths(plans)
    ensures Lookup(AppliedAll(files, plans), p) == Lookup(files, p)
  {
    if plans != [] {
      var front := plans[..|plans| - 1];
      assert forall i :: 0 <= i < |front| ==> Paths(front)[i] == Paths(plans)[i];
      assert Paths(plans)[|plans| - 1] == plans[|plans| - 1].path;
      AppliedElsewhere(files, front, p);
    }
  }

  /** When all plans for a path agree on its snapshot, that snapshot is what it ends up with. */
  lemma {:induction false} AppliedTo(files: Files, plans: seq<Plan>, p: string, snapshot: Option<Bytes>)
    requires p in Paths(plans)
    requires forall i :: 0 <= i < |plans| && plans[i].path == p ==> plans[i].snapshot == snapshot
    ensures Lookup(AppliedAll(files, plans), p) == snapshot
  {
    var front, last := plans[..|plans| - 1], plans[|plans| - 1];
    if last.path != p {
      var i :| 0 <= i < |plans| && Paths(plans)[i] == p;
      assert Paths(front)[i] == p;
      AppliedTo(files, front, p, snapshot);
    }
  }

  // ----- The round trip -------------------------------------------------------------------------

  function EntryPaths(entries: seq<Entry>): (r: seq<string>)
    ensures |r| == |entries|
    ensures forall i :: 0 <= i < |r| ==> r[i] == entries[i].path
  {
    seq(|entries|, i requires 0 <= i < |entries| => entries[i].path)
  }

  function PlansFor(files: Files, dir: Files, entries: seq<Entry>): (r: seq<Plan>)
    ensures |r| == |entries|
    ensures forall i :: 0 <= i < |r| ==> r[i] == PlanFor(files, dir, entries[i].path, entries[i])
  {
    seq(|entries|, i requires 0 <= i < |entries| => PlanFor(files, dir, entries[i].path, entries[i]))
  }

  /** Recorded paths are back to how they were at creation; all other paths are untouched. */
  ghost predicate BackInTime(created: Files, changed: Files, entries: seq<Entry>, restored: Files) {
    forall p :: Lookup(restored, p) == Lookup(if p in EntryPaths(entries) then created else changed, p)
  }

  /** The turn directory still holds every recorded file's own content. */
  ghost predicate Faithful(created: Files, dir: Files, entries: seq<Entry>) {
    forall i :: 0 <= i < |entries| && entries[i].existed == Some(true) ==>
      Lookup(dir, SafeFileName(entries[i].path)) == Lookup(created, entries[i].path)
  }

  lemma RestoreIsExact(created: Files, changed: Files, dir: Files, entries: seq<Entry>)
    requires Recorded(created, entries)
    ensures BackInTime(created, changed, entries, AppliedAll(changed, PlansFor(changed, dir, entries)))
       <==> Faithful(created, dir, entries)
  {
    var plans := PlansFor(changed, dir, entries);
    assert Paths(plans) == EntryPaths(entries);
    forall p | p in EntryPaths(entries)
      ensures Lookup(AppliedAll(changed, plans), p)
           == if p in created then Lookup(dir, SafeFileName(p)) else None
    {
      AppliedTo(changed, plans, p, if p in created then Lookup(dir, SafeFileName(p)) else None);
    }
    forall p | p !in EntryPaths(entries) ensures Lookup(AppliedAll(changed, plans), p) == Lookup(changed, p) {
      AppliedElsewhere(changed, plans, p);
    }
    if !Faithful(created, dir, entries) {
      var i :| 0 <= i < |entries| && entries[i].existed == Some(true)
               && Lookup(dir, SafeFileName(entries[i].path)) != Lookup(created, entries[i].path);
      assert EntryPaths(entries)[i] == entries[i].path;
      assert entries[i].path in EntryPaths(entries);
    }
  }

  /**
   No two recorded files with different contents share a snapshot name, and none with contents other
   than the metadata's own is stored under the metadata's name.
   */
  ghost predicate NamesDoNotClash(codec: MetaCodec, created: Files, meta: Meta) {
    var es := meta.files;
    && (forall i, j :: 0 <= i < j < |es| && es[i].existed == es[j].existed == Some(true)
          && SafeFileName(es[i].path) == SafeFileName(es[j].path)
          ==> Lookup(created, es[i].path) == Lookup(created, es[j].path))
    && (forall i :: 0 <= i < |es| && es[i].existed == Some(true) && SafeFileName(es[i].path) == META
          ==> Lookup(created, es[i].path) == Some(codec.encode(meta)))
  }

  /** A snapshot name holds the content of the last recorded file of that name. */
  lemma {:induction false} LastSnapshotWins(files: Files, entries: seq<Entry>, i: nat) returns (k: nat)
    requires Recorded(files, entries) && i < |entries| && entries[i].existed == Some(true)
    ensures i <= k < |entries| && entries[k].existed == Some(true)
    ensures SafeFileName(entries[k].path) == SafeFileName(entries[i].path)
    ensures Lookup(Snapshots(files, entries), SafeFileName(entries[i].path)) == Lookup(files, entries[k].path)
  {
    var n := |entries| - 1;
    var last := entries[n];
    if last.existed == Some(true) && SafeFileName(last.path) == SafeFileName(entries[i].path) {
      k := n;
    } else {
      assert Recorded(files, entries[..n]);
      k := LastSnapshotWins(files, entries[..n], i);
    }
  }

  lemma FaithfulWithoutClash(codec: MetaCodec, created: Files, meta: Meta)
    requires Recorded(created, meta.files)
    ensures Faithful(created, TurnDir(codec, created, meta), meta.files) <==> NamesDoNotClash(codec, created, meta)
  {
    var es, dir := meta.files, TurnDir(codec, created, meta);
    if NamesDoNotClash(codec, created, meta) {
      forall i | 0 <= i < |es| && es[i].existed == Some(true)
        ensures Lookup(dir, SafeFileName(es[i].path)) == Lookup(created, es[i].path)
      {
        var k := LastSnapshotWins(created, es, i);
        assert i < k ==> Lookup(created, es[i].path) == Lookup(created, es[k].path);
      }
    }
    if Faithful(created, dir, es) {
      forall i, j | 0 <= i < j < |es| && es[i].existed == es[j].existed == Some(true)
                    && SafeFileName(es[i].path) == SafeFileName(es[j].path)
        ensures Lookup(created, es[i].path) == Lookup(created, es[j].path)
      {
        assert Lookup(dir, SafeFileName(es[i].path)) == Lookup(created, es[i].path);
        assert Lookup(dir, SafeFileName(es[j].path)) == Lookup(created, es[j].path);
      }
    }
  }

  /**
   The round trip, whatever happened to the project in between: a restore without failures puts every
   recorded path back to its state at creation and changes no other path, exactly when the snapshot
   names do not clash.
   */
  lemma CreateThenRestore(codec: MetaCodec, created: Files, changed: Files, meta: Meta)
    requires Recorded(created, meta.files)
    ensures var plans := PlansFor(changed, TurnDir(codec, created, meta), meta.files);
            BackInTime(created, changed, meta.files, AppliedAll(changed, plans))
            <==> NamesDoNotClash(codec, created, meta)
  {
    RestoreIsExact(created, changed, TurnDir(codec, created, meta), meta.files);
    FaithfulWithoutClash(codec, created, meta);
  }

  /** Two names that the storage cannot tell apart: restoring gives one file the other's content. */
  lemma UnsafeNamesClash(codec: MetaCodec, one: Bytes, other: Bytes, turnId: string, now: int)
    requires one != other
    ensures var created: Files := map["a?" := one, "a*" := other];
            var meta := Meta(turnId, now, [Entry("a?", Some(true)), Entry("a*", Some(true))]);
            Recorded(created, meta.files) && !NamesDoNotClash(codec, created, meta)
  {
    assert SafeFileName("a?") == SafeFileName("a*") == "a_";
    assert "a?"[1] != "a*"[1];
    var created: Files := map["a?" := one, "a*" := other];
    var es := [Entry("a?", Some(true)), Entry("a*", Some(true))];
    assert Lookup(created, es[0].path) == Some(one) && Lookup(created, es[1].path) == Some(other);
  }

  // ----- Rolling back ---------------------------------------------------------------------------

  /** A project file that is stored under the metadata's name: restoring gives it the metadata. */
  lemma MetadataNameClashes(codec: MetaCodec, content: Bytes, turnId: string, now: int)
    ensures var created: Files := map[META := content];
            var meta := Meta(turnId, now, [Entry(META, Some(true))]);
            Recorded(created, meta.files)
            && (NamesDoNotClash(codec, created, meta) <==> content == codec.encode(meta))
  {
    var meta := Meta(turnId, now, [Entry(META, Some(true))]);
    assert SafeFileName(META) == META && META[0] == '.' && META[1] == 'c';
    assert meta.files[0].path == META;
  }

  lemma LookupsDetermine(a: Files, b: Files)
    requires forall p :: Lookup(a, p) == Lookup(b, p)
    ensures a == b
  {
    forall p | p in a ensures p in b && a[p] == b[p] {
      assert Lookup(a, p) == Lookup(b, p);
    }
    forall p | p in b ensures p in a {
      assert Lookup(a, p) == Lookup(b, p);
    }
  }

  /** The project when the paths `undone`, of those that the plans touched, are back as they were. */
  ghost predicate PartlyUndone(before: Files, plans: seq<Plan>, undone: seq<string>, files: Files) {
    forall p :: Lookup(files, p) == Lookup(if p in undone then before else AppliedAll(before, plans), p)
  }

  /** A path that no plan touched is as before, and so is everything once every touched path is undone. */
  lemma UndoneIsBefore(before: Files, plans: seq<Plan>, undone: seq<string>, files: Files)
    requires PartlyUndone(before, plans, undone, files)
    ensures forall p :: p !in Paths(plans) ==> Lookup(files, p) == Lookup(before, p)
    ensures (forall p :: p in Paths(plans) ==> p in undone) ==> files == before
  {
    forall p | p !in Paths(plans) ensures Lookup(files, p) == Lookup(before, p) {
      AppliedElsewhere(before, plans, p);
    }
    if forall p :: p in Paths(plans) ==> p in undone {
      LookupsDetermine(files, before);
    }
  }

  function Reversed(s: seq<string>): seq<string> {
    if s == [] then [] else Reversed(s[1..]) + [s[0]]
  }

  /** `all` is a merge of the two lists, each in its own order. */
  ghost predicate IsMerge(all: seq<string>, a: seq<string>, b: seq<string>)
    decreases all
  {
    if all == [] then a == [] && b == []
    else
      var n := |all| - 1;
      || (a != [] && a[|a| - 1] == all[n] && IsMerge(all[..n], a[..|a| - 1], b))
      || (b != [] && b[|b| - 1] == all[n] && IsMerge(all[..n], a, b[..|b| - 1]))
  }

  lemma MergeGrows(all: seq<string>, a: seq<string>, b: seq<string>, p: string)
    requires IsMerge(all, a, b)
    ensures IsMerge(all + [p], a + [p], b) && IsMerge(all + [p], a, b + [p])
  {
    assert (all + [p])[..|all|] == all && (a + [p])[..|a|] == a && (b + [p])[..|b|] == b;
  }

  lemma NextReversed(plans: seq<Plan>, i: nat)
    requires i < |plans|
    ensures Reversed(Paths(plans)[i..]) == Reversed(Paths(plans)[i + 1..]) + [plans[i].path]
  {
    assert Paths(plans)[i..][1..] == Paths(plans)[i + 1..];
  }

  /** Undoing one more plan puts its path back. */
  lemma UndoneOneMore(before: Files, plans: seq<Plan>, i: nat, undone: seq<string>, was: Files, files: Files)
    requires i < |plans| && PartlyUndone(before, plans, undone, was) && files == Undone(was, plans[i])
    requires plans[i].previous == Lookup(before, plans[i].path)
    ensures PartlyUndone(before, plans, undone + [plans[i].path], files)
  {
    forall p
      ensures Lookup(files, p) == Lookup(if p in undone + [plans[i].path] then before else AppliedAll(before, plans), p)
    {
      assert Lookup(was, p) == Lookup(if p in undone then before else AppliedAll(before, plans), p);
    }
  }

  lemma {:induction false} MergeWithNothing(all: seq<string>, a: seq<string>)
    requires IsMerge(all, a, [])
    ensures all == a
    decreases all
  {
    if all != [] {
      MergeWithNothing(all[..|all| - 1], a[..|a| - 1]);
    }
  }

  lemma {:induction false} ReversedMembers(s: seq<string>, p: string)
    ensures p in Reversed(s) <==> p in s
  {
    if s != [] {
      ReversedMembers(s[1..], p);
    }
  }

  // ----- The workspace --------------------------------------------------------------------------

  datatype CreateResult = NotCreated | Created(meta: Meta) | CreateFailed | Interrupted

  datatype RestoreError =
    | NoCheckpoint | MetadataMissing | MetadataCorrupted | MetadataWithoutFiles
    | InvalidPath(path: string) | InvalidSource(path: string) | IsDirectory(path: string)
    | SnapshotMissing(path: string) | PrepareFailed(path: string) | ApplyFailed(path: string)

  datatype RestoreResult = RestoreResult(
    restored: seq<string>, error: Option<RestoreError>, rolledBack: seq<string>, rollbackFailures: seq<string>)

  function Targets(resolve: string -> Option<string>, paths: seq<string>): seq<string> {
    if paths == [] then []
    else (if resolve(paths[0]).Some? then [resolve(paths[0]).value] else []) + Targets(resolve, paths[1..])
  }

  lemma {:induction false} TargetsAreResolved(resolve: string -> Option<string>, paths: seq<string>, i: nat)
    requires Resolves(resolve) && i < |Targets(resolve, paths)|
    ensures var target := Targets(resolve, paths)[i]; Inside(target) && resolve(target) == Some(target)
    decreases |paths|
  {
    var front := if resolve(paths[0]).Some? then [resolve(paths[0]).value] else [];
    if i >= |front| {
      TargetsAreResolved(resolve, paths[1..], i - |front|);
    }
  }

  /** `a` is `b` with some elements left out. */
  ghost predicate Subsequence(a: seq<string>, b: seq<string>)
    decreases b
  {
    if b == [] then a == []
    else
      var n := |b| - 1;
      Subsequence(a, b[..n]) || (a != [] && a[|a| - 1] == b[n] && Subsequence(a[..|a| - 1], b[..n]))
  }

  lemma SubsequenceGrows(a: seq<string>, b: seq<string>, p: string)
    requires Subsequence(a, b)
    ensures Subsequence(a, b + [p]) && Subsequence(a + [p], b + [p])
  {
    assert (b + [p])[..|b|] == b && (a + [p])[..|a|] == a;
  }

  lemma {:induction false} SubsequenceMember(a: seq<string>, b: seq<string>, i: nat) returns (j: nat)
    requires Subsequence(a, b) && i < |a|
    ensures j < |b| && b[j] == a[i]
    decreases |b|
  {
    var n := |b| - 1;
    if Subsequence(a, b[..n]) {
      j := SubsequenceMember(a, b[..n], i);
    } else if i == |a| - 1 {
      j := n;
    } else {
      j := SubsequenceMember(a[..|a| - 1], b[..n], i);
    }
  }

  /** No file to be stored shares the metadata's name. */
  predicate NoneNamedMeta(targets: seq<string>) {
    forall i :: 0 <= i < |targets| ==> SafeFileName(targets[i]) != META
  }

  /** A turn directory that a restore either refuses or can use in full. */
  ghost predicate Recoverable(codec: MetaCodec, dir: Files) {
    META in dir ==>
      codec.decode(dir[META]).Described? && SnapshotsPresent(dir, codec.decode(dir[META]).files)
  }

  lemma TurnDirIsComplete(codec: MetaCodec, files: Files, meta: Meta)
    requires Decodes(codec) && Recorded(files, meta.files)
    ensures var dir := TurnDir(codec, files, meta);
            META in dir && SnapshotsPresent(dir, meta.files) && Recoverable(codec, dir)
  {
    SnapshotsHaveEntries(files, meta.files);
    assert codec.decode(codec.encode(meta)) == Described(meta.files);
  }

  /** The plans for a restore of `entries` from `dir`, all of them possible. */
  ghost predicate Planned(resolve: string -> Option<string>, directories: set<string>, files: Files, dir: Files,
                          entries: seq<Entry>, plans: seq<Plan>)
  {
    && |plans| == |entries|
    && forall i :: 0 <= i < |entries| ==>
         && resolve(entries[i].path).Some? && resolve(entries[i].path).value !in directories
         && plans[i] == PlanFor(files, dir, resolve(entries[i].path).value, entries[i])
         && (entries[i].existed != Some(false) ==> plans[i].snapshot.Some?)
  }

  /** Every snapshot that the entries name is found where their paths resolve to. */
  ghost predicate SnapshotsFound(resolve: string -> Option<string>, dir: Files, entries: seq<Entry>) {
    forall i :: 0 <= i < |entries| && entries[i].existed != Some(false) ==>
      resolve(entries[i].path).Some? && SafeFileName(resolve(entries[i].path).value) in dir
  }

  lemma PlannedFindsSnapshots(resolve: string -> Option<string>, directories: set<string>, files: Files, dir: Files,
                              entries: seq<Entry>, plans: seq<Plan>)
    requires Planned(resolve, directories, files, dir, entries, plans)
    ensures SnapshotsFound(resolve, dir, entries)
  {
  }

  /** For the entries of a checkpoint made here, these are the plans of the round trip. */
  lemma PlannedForOwnEntries(resolve: string -> Option<string>, directories: set<string>, files: Files, dir: Files,
                             entries: seq<Entry>, plans: seq<Plan>)
    requires Planned(resolve, directories, files, dir, entries, plans)
    requires forall i :: 0 <= i < |entries| ==> resolve(entries[i].path) == Some(entries[i].path)
    ensures plans == PlansFor(files, dir, entries)
  {
  }

  /**
   Creating and restoring, composed: what a successful create promises of its metadata and directory,
   and what a restore promises of the plans it carried out in whatever the project had become, put the
   recorded paths back in time and nothing else exactly when the snapshot names do not clash.
   */
  lemma {:induction false} RestoreAfterCreate(codec: MetaCodec, resolve: string -> Option<string>,
                                              directories: set<string>, paths: seq<string>, created: Files,
                                              changed: Files, meta: Meta, plans: seq<Plan>)
    requires Decodes(codec) && Resolves(resolve)
    requires Recorded(created, meta.files) && Subsequence(EntryPaths(meta.files), Targets(resolve, paths))
    requires var decoded := codec.decode(TurnDir(codec, created, meta)[META]);
             decoded.Described?
             && Planned(resolve, directories, changed, TurnDir(codec, created, meta), decoded.files, plans)
    ensures BackInTime(created, changed, meta.files, AppliedAll(changed, plans))
       <==> NamesDoNotClash(codec, created, meta)
  {
    var dir, entries := TurnDir(codec, created, meta), meta.files;
    assert codec.decode(codec.encode(meta)) == Described(entries);
    forall i | 0 <= i < |entries| ensures resolve(entries[i].path) == Some(entries[i].path) {
      var j := SubsequenceMember(EntryPaths(entries), Targets(resolve, paths), i);
      TargetsAreResolved(resolve, paths, j);
    }
    PlannedForOwnEntries(resolve, directories, changed, dir, entries, plans);
    CreateThenRestore(codec, created, changed, meta);
  }

  class Workspace {
    const codec: MetaCodec
    const resolve: string -> Option<string>
    var files: Files
    var directories: set<string>
    var canonical: map<string, Files>
    var legacy: map<string, Files>

    constructor (codec: MetaCodec, resolve: string -> Option<string>, files: Files, directories: set<string>,
                 legacy: map<string, Files>)
      ensures this.codec == codec && this.resolve == resolve && this.files == files
      ensures this.directories == directories && this.legacy == legacy && this.canonical == map[]
    {
      this.codec, this.resolve, this.files, this.directories := codec, resolve, files, directories;
      this.canonical, this.legacy := map[], legacy;
    }

    /** The directory a restore of the turn reads: the canonical one hides a legacy one. */
    function ExistingTurnDir(turn: string): Option<Files>
      reads this
    {
      if turn in canonical then Some(canonical[turn])
      else if turn in legacy then Some(legacy[turn]) else None
    }

    method ReadFile(path: string) returns (content: Option<Bytes>)
      ensures content.Some? ==> content == Lookup(files, path)
    {
      content := None;
      if path in files {
        if * {
          content := Some(files[path]);
        }
      }
    }

    method WriteFile(path: string, content: Bytes) returns (ok: bool)
      modifies this`files
      ensures files == if ok then old(files)[path := content] else old(files)
    {
      if * {
        ok := false;
      } else {
        files, ok := files[path := content], true;
      }
    }

    method RemoveFile(path: string) returns (ok: bool)
      modifies this`files
      ensures files == if ok then old(files) - {path} else old(files)
    {
      if * {
        ok := false;
      } else {
        files, ok := files - {path}, true;
      }
    }

    method WriteSnapshot(turn: string, name: string, content: Bytes) returns (ok: bool)
      requires turn in canonical
      modifies this`canonical
      ensures canonical == if ok then old(canonical)[turn := old(canonical)[turn][name := content]] else old(canonical)
    {
      if * {
        ok := false;
      } else {
        canonical, ok := canonical[turn := canonical[turn][name := content]], true;
      }
    }

    /**
     Takes the checkpoint of a turn; it may fail at any write and be cut short after any step. An
     earlier checkpoint of this or another turn is never altered. However far it got, what is left of
     the new one is refused by a restore or complete, unless a file shares the metadata's name. It
     does hide a legacy checkpoint of the same turn: when it fails after making its directory, the turn
     has no metadata any more, though the legacy checkpoint may be complete.
     */
    method CreateCheckpoint(turn: string, paths: seq<string>, now: int) returns (r: CreateResult)
      requires Resolves(resolve) && Decodes(codec)
      modifies this`canonical
      ensures turn in old(canonical) ==> r == NotCreated && canonical == old(canonical)
      ensures r == NotCreated ==> canonical == old(canonical)
      ensures canonical == if turn in canonical then old(canonical)[turn := canonical[turn]] else old(canonical)
      ensures r.Created? ==>
                && r.meta.turnId == turn && Recorded(files, r.meta.files)
                && Subsequence(EntryPaths(r.meta.files), Targets(resolve, paths))
                && canonical == old(canonical)[turn := TurnDir(codec, files, r.meta)]
                && SnapshotsPresent(canonical[turn], r.meta.files)
      ensures ExistingTurnDir(turn) == if turn in old(canonical) || turn !in canonical
                then old(ExistingTurnDir(turn)) else Some(canonical[turn])
      ensures turn in canonical && turn !in old(canonical) && NoneNamedMeta(Targets(resolve, paths)) ==>
                Recoverable(codec, canonical[turn]) && (META in canonical[turn] <==> r.Created?)
      ensures turn in legacy && turn !in old(canonical) && turn in canonical && !r.Created?
              && NoneNamedMeta(Targets(resolve, paths)) ==>
                old(ExistingTurnDir(turn)) == Some(legacy[turn]) && META !in ExistingTurnDir(turn).value
    {
      var targets := ResolveTargets(paths);
      if targets == [] || turn in canonical {
        return NotCreated;
      }
      if * {
        return CreateFailed;
      }
      canonical := canonical[turn := map[]];
      forall i | 0 <= i < |targets| ensures Inside(targets[i]) {
        TargetsAreResolved(resolve, paths, i);
      }
      r := FillTurnDir(turn, targets, now);
      assert old(canonical)[turn := map[]][turn := canonical[turn]] == old(canonical)[turn := canonical[turn]];
    }

    /** Copies the targets into the new directory, and writes the metadata last. */
    method FillTurnDir(turn: string, targets: seq<string>, now: int) returns (r: CreateResult)
      requires turn in canonical && canonical[turn] == map[] && Decodes(codec)
      requires forall i :: 0 <= i < |targets| ==> Inside(targets[i])
      modifies this`canonical
      ensures turn in canonical && canonical == old(canonical)[turn := canonical[turn]] && r != NotCreated
      ensures r.Created? ==>
                && r.meta.turnId == turn && Recorded(files, r.meta.files)
                && Subsequence(EntryPaths(r.meta.files), targets)
                && canonical[turn] == TurnDir(codec, files, r.meta)
                && SnapshotsPresent(canonical[turn], r.meta.files)
      ensures NoneNamedMeta(targets)
             ==> Recoverable(codec, canonical[turn]) && (META in canonical[turn] <==> r.Created?)
    {
      var entries, finished := TakeSnapshots(turn, targets);
      if !finished {
        return Interrupted;
      }
      var meta := Meta(turn, now, entries);
      TurnDirIsComplete(codec, files, meta);
      var ok := WriteSnapshot(turn, META, codec.encode(meta));
      r := if ok then Created(meta) else CreateFailed;
    }

    /** Copies the targets that exist; stops anywhere when it is interrupted. */
    method TakeSnapshots(turn: string, targets: seq<string>) returns (entries: seq<Entry>, finished: bool)
      requires turn in canonical && canonical[turn] == map[]
      requires forall i :: 0 <= i < |targets| ==> Inside(targets[i])
      modifies this`canonical
      ensures turn in canonical && canonical == old(canonical)[turn := canonical[turn]]
      ensures NoneNamedMeta(targets) ==> META !in canonical[turn]
      ensures finished ==> Recorded(files, entries) && Subsequence(EntryPaths(entries), targets)
                           && canonical[turn] == Snapshots(files, entries)
    {
      entries := [];
      for i := 0 to |targets|
        invariant turn in canonical && canonical == old(canonical)[turn := canonical[turn]]
        invariant canonical[turn] == Snapshots(files, entries)
        invariant Recorded(files, entries) && Subsequence(EntryPaths(entries), targets[..i])
        invariant NoneNamedMeta(targets) ==> META !in canonical[turn]
      {
        assert targets[..i + 1] == targets[..i] + [targets[i]];
        entries, finished := TakeSnapshot(turn, targets[i], entries, targets[..i]);
        if !finished {
          return;
        }
      }
      assert targets[..|targets|] == targets;
      finished := true;
    }

    /** Copies one target and records it; a target that cannot be read or copied is left out. */
    method TakeSnapshot(turn: string, target: string, entries: seq<Entry>, ghost before: seq<string>)
      returns (r: seq<Entry>, finished: bool)
      requires turn in canonical && canonical[turn] == Snapshots(files, entries)
      requires Recorded(files, entries) && Inside(target) && Subsequence(EntryPaths(entries), before)
      modifies this`canonical
      ensures turn in canonical && canonical == old(canonical)[turn := canonical[turn]]
      ensures finished ==> Recorded(files, r) && Subsequence(EntryPaths(r), before + [target])
                           && canonical[turn] == Snapshots(files, r)
      ensures SafeFileName(target) != META && META !in old(canonical)[turn] ==> META !in canonical[turn]
    {
      r, finished := entries, false;
      if * {
        return;
      }
      finished := true;
      SubsequenceGrows(EntryPaths(entries), before, target);
      if target !in files && target !in directories {
        r := Record(entries, target, false, before);
        return;
      }
      var content := ReadFile(target);
      var source := SourceName(target);
      if content.None? || source.None? {
        return;
      }
      var ok := WriteSnapshot(turn, source.value, content.value);
      if * {
        finished := false;
      } else if ok {
        r := Record(entries, target, true, before);
      }
    }

    /** Adds an entry for a target. */
    method Record(entries: seq<Entry>, target: string, existed: bool, ghost before: seq<string>) returns (r: seq<Entry>)
      requires Recorded(files, entries) && Inside(target) && existed == (target in files)
      requires Subsequence(EntryPaths(entries), before)
      ensures Recorded(files, r) && Subsequence(EntryPaths(r), before + [target])
      ensures Snapshots(files, r)
           == if existed then Snapshots(files, entries)[SafeFileName(target) := files[target]]
               else Snapshots(files, entries)
    {
      r := entries + [Entry(target, Some(existed))];
      assert EntryPaths(r) == EntryPaths(entries) + [target];
      SubsequenceGrows(EntryPaths(entries), before, target);
      assert r[..|r| - 1] == entries;
    }

    method ResolveTargets(paths: seq<string>) returns (targets: seq<string>)
      ensures targets == Targets(resolve, paths)
    {
      targets := [];
      for i := 0 to |paths|
        invariant Targets(resolve, paths) == targets + Targets(resolve, paths[i..])
      {
        assert paths[i..][1..] == paths[i + 1..];
        if resolve(paths[i]).Some? {
          targets := targets + [resolve(paths[i]).value];
        }
      }
    }

    /**
     Restores the checkpoint of a turn. Without an error every plan was carried out. An error before
     the first write leaves the project alone. When a write fails, the plans carried out so far are
     undone in reverse order: each is reported as rolled back or as failed, and the project is as
     before on every path but those whose undo failed. Whatever is in the turn's directory, say what a
     create that was cut short left there, either the project is left alone or every snapshot that the
     metadata names is found.
     */
    method RestoreCheckpoint(turn: string) returns (r: RestoreResult, ghost plans: seq<Plan>)
      requires Resolves(resolve)
      modifies this`files
      ensures ExistingTurnDir(turn).None? ==> r.error == Some(NoCheckpoint)
      ensures ExistingTurnDir(turn).Some? && META !in ExistingTurnDir(turn).value ==> r.error == Some(MetadataMissing)
      ensures r.error.None? || r.error.value.ApplyFailed? ==>
                && ExistingTurnDir(turn).Some? && META in ExistingTurnDir(turn).value
                && codec.decode(ExistingTurnDir(turn).value[META]).Described?
                && Planned(resolve, directories, old(files), ExistingTurnDir(turn).value,
                           codec.decode(ExistingTurnDir(turn).value[META]).files, plans)
      ensures r.error.None? || r.error.value.ApplyFailed? ==>
                SnapshotsFound(resolve, ExistingTurnDir(turn).value,
                               codec.decode(ExistingTurnDir(turn).value[META]).files)
      ensures r.error.None? ==> files == AppliedAll(old(files), plans) && r.restored == Paths(plans)
      ensures r.error.Some? && !r.error.value.ApplyFailed? ==> files == old(files) && r.restored == []
      ensures r.error.Some? && r.error.value.ApplyFailed? ==>
                var k := |r.restored|;
                && k < |plans| && r.restored == Paths(plans[..k]) && r.error.value.path == plans[k].path
                && IsMerge(Reversed(r.restored), r.rolledBack, r.rollbackFailures)
                && PartlyUndone(old(files), plans[..k], r.rolledBack, files)
                && (r.rollbackFailures == [] ==> files == old(files))
    {
      plans := [];
      var dir := ExistingTurnDir(turn);
      if dir.None? {
        return Refuse(NoCheckpoint), [];
      }
      if META !in dir.value {
        return Refuse(MetadataMissing), [];
      }
      if * {
        return Refuse(MetadataCorrupted), [];
      }
      var meta := codec.decode(dir.value[META]);
      if meta.Corrupted? {
        return Refuse(MetadataCorrupted), [];
      }
      if meta.NoFilesArray? {
        return Refuse(MetadataWithoutFiles), [];
      }
      var prepared, error := PreparePlans(dir.value, meta.files);
      if error.Some? {
        return Refuse(error.value), [];
      }
      plans := prepared;
      PlannedFindsSnapshots(resolve, directories, files, dir.value, meta.files, plans);
      r := ApplyPlans(prepared);
    }

    static function Refuse(error: RestoreError): RestoreResult { RestoreResult([], Some(error), [], []) }

    /** Reads everything a restore needs, without writing. */
    method PreparePlans(dir: Files, entries: seq<Entry>) returns (plans: seq<Plan>, error: Option<RestoreError>)
      requires Resolves(resolve)
      ensures error.None? ==> Planned(resolve, directories, files, dir, entries, plans)
      ensures error.Some? ==> !error.value.ApplyFailed? && !error.value.NoCheckpoint? && !error.value.MetadataMissing?
    {
      plans := [];
      for i := 0 to |entries|
        invariant Planned(resolve, directories, files, dir, entries[..i], plans)
      {
        var e := entries[i];
        var target := resolve(e.path);
        if target.None? {
          return plans, Some(InvalidPath(e.path));
        }
        var source := SourceName(target.value);
        if source.None? {
          return plans, Some(InvalidSource(e.path));
        }
        if target.value in directories {
          return plans, Some(IsDirectory(e.path));
        }
        var previous := None;
        if target.value in files {
          previous := ReadFile(target.value);
          if previous.None? {
            return plans, Some(PrepareFailed(e.path));
          }
        }
        if e.existed != Some(false) && source.value !in dir {
          return plans, Some(SnapshotMissing(e.path));
        }
        if * {
          return plans, Some(PrepareFailed(e.path));
        }
        var snapshot := if e.existed == Some(false) then None else Lookup(dir, source.value);
        plans := plans + [Plan(target.value, snapshot, previous)];
        assert entries[..i + 1] == entries[..i] + [e];
      }
      assert entries[..|entries|] == entries;
      error := None;
    }

    /** Carries out one plan. */
    method Apply(plan: Plan) returns (ok: bool)
      modifies this`files
      ensures files == if ok then Applied(old(files), plan) else old(files)
    {
      ok := true;
      if plan.snapshot.Some? {
        ok := WriteFile(plan.path, plan.snapshot.value);
      } else if plan.path in files {
        ok := RemoveFile(plan.path);
      } else {
        assert files - {plan.path} == files;
      }
    }

    /** Undoes one plan. */
    method Undo(plan: Plan) returns (ok: bool)
      modifies this`files
      ensures files == if ok then Undone(old(files), plan) else old(files)
    {
      ok := true;
      if plan.previous.Some? {
        ok := WriteFile(plan.path, plan.previous.value);
      } else if plan.path in files {
        ok := RemoveFile(plan.path);
      } else {
        assert files - {plan.path} == files;
      }
    }

    method ApplyPlans(plans: seq<Plan>) returns (r: RestoreResult)
      requires forall i :: 0 <= i < |plans| ==> plans[i].previous == Lookup(files, plans[i].path)
      modifies this`files
      ensures r.error.None? ==> files == AppliedAll(old(files), plans) && r.restored == Paths(plans)
      ensures r.error.Some? ==> r.error.value.ApplyFailed?
      ensures r.error.Some? ==>
                var k := |r.restored|;
                && k < |plans| && r.restored == Paths(plans[..k]) && r.error.value.path == plans[k].path
                && IsMerge(Reversed(r.restored), r.rolledBack, r.rollbackFailures)
                && PartlyUndone(old(files), plans[..k], r.rolledBack, files)
                && (r.rollbackFailures == [] ==> files == old(files))
    {
      var restored: seq<string> := [];
      for i := 0 to |plans|
        invariant restored == Paths(plans[..i])
        invariant files == AppliedAll(old(files), plans[..i])
      {
        var ok := Apply(plans[i]);
        if !ok {
          ghost var before := old(files);
          var rolledBack, rollbackFailures := RollBack(before, plans[..i]);
          UndoneIsBefore(before, plans[..i], rolledBack, files);
          if rollbackFailures == [] {
            MergeWithNothing(Reversed(restored), rolledBack);
            forall p | p in Paths(plans[..i]) ensures p in rolledBack {
              ReversedMembers(restored, p);
            }
          }
          return RestoreResult(restored, Some(ApplyFailed(plans[i].path)), rolledBack, rollbackFailures);
        }
        assert plans[..i + 1][..i] == plans[..i];
        restored := restored + [plans[i].path];
      }
      assert plans[..|plans|] == plans;
      r := RestoreResult(restored, None, [], []);
    }

    /** Undoes the applied plans, the last one first, and goes on when an undo fails. */
    method RollBack(ghost before: Files, applied: seq<Plan>) returns (rolledBack: seq<string>, failures: seq<string>)
      requires files == AppliedAll(before, applied)
      requires forall i :: 0 <= i < |applied| ==> applied[i].previous == Lookup(before, applied[i].path)
      modifies this`files
      ensures IsMerge(Reversed(Paths(applied)), rolledBack, failures)
      ensures PartlyUndone(before, applied, rolledBack, files)
    {
      rolledBack, failures := [], [];
      var i := |applied|;
      assert Paths(applied)[i..] == [];
      while i > 0
        invariant 0 <= i <= |applied|
        invariant IsMerge(Reversed(Paths(applied)[i..]), rolledBack, failures)
        invariant PartlyUndone(before, applied, rolledBack, files)
      {
        i := i - 1;
        var completed := applied[i];
        NextReversed(applied, i);
        MergeGrows(Reversed(Paths(applied)[i + 1..]), rolledBack, failures, completed.path);
        ghost var was := files;
        var ok := Undo(completed);
        if ok {
          UndoneOneMore(before, applied, i, rolledBack, was, files);
          rolledBack := rolledBack + [completed.path];
        } else {
          failures := failures + [completed.path];
        }
      }
      assert Paths(applied)[0..] == Paths(applied);
    }
  }
}
