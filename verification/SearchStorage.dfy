/** The retrieval directory, one file operation at a time. */
module SearchStorage {
  import opened Wrappers
  import opened Sequences
  import opened SearchModel
  import opened SearchBuild
  import opened SearchGeneration
  import opened SearchRefinement
  import opened SearchWarm
  import opened SearchLifecycle

  // A build stages beside `generations/` and renames the finished generation
  // into it; retiring renames one out before its files go. Each file operation
  // is one atomic step, and `trace` records the directory after every step, so
  // a crash leaves one of the recorded states.

  datatype Path =
    | ManifestFile
    | SegmentsDirectory
    | SegmentDirectory(id: Digest)
    | PlaneFile(pid: Digest, plane: Plane)
    | SegmentManifestFile(mid: Digest)

  datatype Content =
    | Folder
    | Unfinished
    | PlaneRows(files: SegmentFiles, of: Plane)
    | SegmentText(segment: SegmentManifest)
    | ManifestText(generation: GenerationManifest)

  type Files = map<Path, Content>

  /** One segment's files, as written one after the other. */
  function SegmentWrites(id: Digest, files: SegmentFiles): seq<(Path, Content)> {
    [(SegmentDirectory(id), Folder),
     (PlaneFile(id, FactsPlane), Unfinished), (PlaneFile(id, ContentPlane), Unfinished), (PlaneFile(id, LexicalPlane), Unfinished),
     (PlaneFile(id, FactsPlane), PlaneRows(files, FactsPlane)), (PlaneFile(id, ContentPlane), PlaneRows(files, ContentPlane)),
     (PlaneFile(id, LexicalPlane), PlaneRows(files, LexicalPlane)),
     (SegmentManifestFile(id), SegmentText(files.manifest))]
  }

  function AllSegmentWrites(segments: map<Digest, SegmentFiles>, ids: seq<Digest>): seq<(Path, Content)> {
    if ids == [] then []
    else (if ids[0] in segments then SegmentWrites(ids[0], segments[ids[0]]) else []) + AllSegmentWrites(segments, ids[1..])
  }

  /** Everything a build writes into its staging directory, in order: the generation manifest last. */
  function Writes(tree: Tree): seq<(Path, Content)> {
    [(SegmentsDirectory, Folder)] + AllSegmentWrites(tree.segments, DeclaredIds(tree.manifest.body))
    + [(ManifestFile, ManifestText(tree.manifest))]
  }

  function Apply(files: Files, writes: seq<(Path, Content)>): Files
    decreases |writes|
  {
    if writes == [] then files else Apply(files[writes[0].0 := writes[0].1], writes[1..])
  }

  /** What a complete generation directory holds. */
  ghost predicate Complete(files: Files, tree: Tree) {
    && (forall path :: path in files <==> Belongs(path, tree))
    && (forall path :: path in files ==> files[path] == Expected(path, tree))
  }

  predicate Belongs(path: Path, tree: Tree) {
    match path
    case ManifestFile => true
    case SegmentsDirectory => true
    case SegmentDirectory(id) => id in tree.segments
    case PlaneFile(id, _) => id in tree.segments
    case SegmentManifestFile(id) => id in tree.segments
  }

  function Expected(path: Path, tree: Tree): Content
    requires Belongs(path, tree)
  {
    match path
    case ManifestFile => ManifestText(tree.manifest)
    case SegmentsDirectory => Folder
    case SegmentDirectory(id) => Folder
    case PlaneFile(id, plane) => PlaneRows(tree.segments[id], plane)
    case SegmentManifestFile(id) => SegmentText(tree.segments[id].manifest)
  }

  lemma {:induction false} ApplyConcat(files: Files, a: seq<(Path, Content)>, b: seq<(Path, Content)>)
    ensures Apply(files, a + b) == Apply(Apply(files, a), b)
    decreases |a|
  {
    if a == [] {
      assert a + b == b;
    } else {
      assert (a + b)[1..] == a[1..] + b;
      ApplyConcat(files[a[0].0 := a[0].1], a[1..], b);
    }
  }

  /** The directory once the segments of `ids` are written. */
  ghost predicate Written(files: Files, tree: Tree, ids: seq<Digest>) {
    && (forall path :: path in files <==> path == SegmentsDirectory || OfSegment(path, ids))
    && (forall path :: path in files && Belongs(path, tree) ==> files[path] == Expected(path, tree))
  }

  predicate OfSegment(path: Path, ids: seq<Digest>) {
    match path
    case SegmentDirectory(id) => id in ids
    case PlaneFile(id, _) => id in ids
    case SegmentManifestFile(id) => id in ids
    case ManifestFile => false
    case SegmentsDirectory => false
  }

  function AfterSegment(files: Files, id: Digest, segment: SegmentFiles): Files {
    files[SegmentDirectory(id) := Folder]
         [PlaneFile(id, FactsPlane) := PlaneRows(segment, FactsPlane)]
         [PlaneFile(id, ContentPlane) := PlaneRows(segment, ContentPlane)]
         [PlaneFile(id, LexicalPlane) := PlaneRows(segment, LexicalPlane)]
         [SegmentManifestFile(id) := SegmentText(segment.manifest)]
  }

  lemma ApplyFour(files: Files, a: (Path, Content), b: (Path, Content), c: (Path, Content), d: (Path, Content))
    ensures Apply(files, [a, b, c, d]) == files[a.0 := a.1][b.0 := b.1][c.0 := c.1][d.0 := d.1]
  {
    assert [a, b, c, d][1..] == [b, c, d] && [b, c, d][1..] == [c, d] && [c, d][1..] == [d] && [d][1..] == [];
    assert Apply(files[a.0 := a.1][b.0 := b.1][c.0 := c.1], [d]) == Apply(files[a.0 := a.1][b.0 := b.1][c.0 := c.1][d.0 := d.1], []);
    assert Apply(files[a.0 := a.1][b.0 := b.1], [c, d]) == Apply(files[a.0 := a.1][b.0 := b.1][c.0 := c.1], [d]);
    assert Apply(files[a.0 := a.1], [b, c, d]) == Apply(files[a.0 := a.1][b.0 := b.1], [c, d]);
  }

  lemma SegmentWritten(files: Files, id: Digest, segment: SegmentFiles)
    ensures Apply(files, SegmentWrites(id, segment)) == AfterSegment(files, id, segment)
  {
    var w := SegmentWrites(id, segment);
    assert w == w[..4] + w[4..];
    ApplyConcat(files, w[..4], w[4..]);
    assert w[..4] == [w[0], w[1], w[2], w[3]] && w[4..] == [w[4], w[5], w[6], w[7]];
    ApplyFour(files, w[0], w[1], w[2], w[3]);
    ApplyFour(Apply(files, w[..4]), w[4], w[5], w[6], w[7]);
  }

  lemma {:induction false} SegmentsWritten(files: Files, tree: Tree, done: seq<Digest>, ids: seq<Digest>)
    requires Written(files, tree, done)
    requires forall i :: 0 <= i < |ids| ==> ids[i] in tree.segments
    ensures Written(Apply(files, AllSegmentWrites(tree.segments, ids)), tree, done + ids)
    decreases |ids|
  {
    if ids == [] {
      assert done + ids == done;
    } else {
      var id := ids[0];
      var segment := tree.segments[id];
      ApplyConcat(files, SegmentWrites(id, segment), AllSegmentWrites(tree.segments, ids[1..]));
      SegmentWritten(files, id, segment);
      OneWritten(files, tree, done, id);
      assert (done + [id]) + ids[1..] == done + ids;
      forall i | 0 <= i < |ids[1..]| ensures ids[1..][i] in tree.segments { assert ids[1..][i] == ids[i + 1]; }
      SegmentsWritten(AfterSegment(files, id, segment), tree, done + [id], ids[1..]);
    }
  }

  lemma OneWritten(files: Files, tree: Tree, done: seq<Digest>, id: Digest)
    requires Written(files, tree, done) && id in tree.segments
    ensures Written(AfterSegment(files, id, tree.segments[id]), tree, done + [id])
  {
    var after := AfterSegment(files, id, tree.segments[id]);
    forall path ensures path in after <==> path == SegmentsDirectory || OfSegment(path, done + [id]) {
      match path
      case PlaneFile(x, plane) => match plane { case FactsPlane => case ContentPlane => case LexicalPlane => }
      case _ =>
    }
  }

  /** Writing all of a generation leaves exactly its complete directory. */
  lemma WritesComplete(tree: Tree)
    requires Lists(DeclaredIds(tree.manifest.body), tree.segments.Keys)
    ensures Complete(Apply(map[], Writes(tree)), tree)
  {
    var ids := DeclaredIds(tree.manifest.body);
    var head, body, last := [(SegmentsDirectory, Folder)], AllSegmentWrites(tree.segments, ids), [(ManifestFile, ManifestText(tree.manifest))];
    ApplyConcat(map[], head + body, last);
    ApplyConcat(map[], head, body);
    assert head[1..] == [] && last[1..] == [];
    var empty: Files := map[];
    assert Apply(empty, head) == map[SegmentsDirectory := Folder];
    OrderedMember(ids, tree.segments.Keys);
    SegmentsWritten(Apply(map[], head), tree, [], ids);
    assert [] + ids == ids;
    var written := Apply(Apply(map[], head), body);
    assert Apply(written, last) == written[ManifestFile := ManifestText(tree.manifest)];
    forall path ensures path in written[ManifestFile := ManifestText(tree.manifest)] <==> Belongs(path, tree) {
      forall id ensures id in ids <==> id in tree.segments { assert id in ids <==> id in tree.segments.Keys; }
    }
  }

  // ---------------------------------------------------------------- the directory and its steps

  datatype State = State(staging: map<nat, Files>, retired: map<nat, Files>, generations: map<Digest, Files>)

  /** What a build makes of some input. */
  ghost predicate Genuine(k: Kernel, tree: Tree) { exists input :: Buildable(k, input) && IsBuilt(k, input, tree) }

  /** `generations/` holds nothing but complete built generations, each under its own identity. */
  ghost predicate Safe(k: Kernel, s: State) {
    forall id :: id in s.generations ==> CompleteUnder(k, id, s.generations[id])
  }

  ghost predicate CompleteUnder(k: Kernel, id: Digest, files: Files) {
    exists tree: Tree :: tree.manifest.generationId == id && Complete(files, tree) && Genuine(k, tree)
  }

  datatype PublishError = Thrown | DiffersUnderIdentity

  class RetrievalRoot {
    var staging: map<nat, Files>
    var retired: map<nat, Files>
    var generations: map<Digest, Files>
    var trace: seq<State>

    constructor ()
      ensures staging == map[] && retired == map[] && generations == map[] && trace == [State(map[], map[], map[])]
    {
      staging, retired, generations := map[], map[], map[];
      trace := [State(map[], map[], map[])];
    }

    function Now(): State
      reads this
    {
      State(staging, retired, generations)
    }

    /** Every state recorded since `start` has these generations: a crash leaves them as they are. */
    ghost predicate Frozen(start: nat, held: map<Digest, Files>)
      reads this
    {
      start <= |trace| && forall i :: start <= i < |trace| ==> trace[i].generations == held
    }

    method WriteStaging(name: nat, files: Files)
      modifies this
      ensures staging == old(staging)[name := files] && retired == old(retired) && generations == old(generations)
      ensures name in staging && staging - {name} == old(staging) - {name}
      ensures trace == old(trace) + [Now()]
    {
      staging := staging[name := files];
      trace := trace + [Now()];
    }

    method WriteRetired(name: nat, files: Files)
      modifies this
      ensures retired == old(retired)[name := files] && staging == old(staging) && generations == old(generations)
      ensures name in retired && retired - {name} == old(retired) - {name}
      ensures trace == old(trace) + [Now()]
    {
      retired := retired[name := files];
      trace := trace + [Now()];
    }

    /** rmSync recursive: file by file, in any order, then the directory itself. */
    method RemoveStaging(name: nat)
      requires name in staging
      modifies this
      ensures staging == old(staging) - {name} && retired == old(retired) && generations == old(generations)
      ensures old(trace) <= trace && Frozen(|old(trace)|, generations)
    {
      var files := staging[name];
      while files != map[]
        invariant name in staging && staging - {name} == old(staging) - {name}
        invariant retired == old(retired) && generations == old(generations)
        invariant old(trace) <= trace && Frozen(|old(trace)|, generations)
        decreases |files|
      {
        var path :| path in files.Keys;
        files := files - {path};
        WriteStaging(name, files);
      }
      staging := staging - {name};
      trace := trace + [Now()];
    }

    method RemoveRetired(name: nat)
      requires name in retired
      modifies this
      ensures retired == old(retired) - {name} && staging == old(staging) && generations == old(generations)
      ensures old(trace) <= trace && Frozen(|old(trace)|, generations)
    {
      var files := retired[name];
      while files != map[]
        invariant name in retired && retired - {name} == old(retired) - {name}
        invariant staging == old(staging) && generations == old(generations)
        invariant old(trace) <= trace && Frozen(|old(trace)|, generations)
        decreases |files|
      {
        var path :| path in files.Keys;
        files := files - {path};
        WriteRetired(name, files);
      }
      retired := retired - {name};
      trace := trace + [Now()];
    }

    /** The next build removes every staging directory an earlier one left. */
    method SweepStaging()
      modifies this
      ensures staging == map[] && retired == old(retired) && generations == old(generations)
      ensures old(trace) <= trace && Frozen(|old(trace)|, generations)
    {
      while staging != map[]
        invariant retired == old(retired) && generations == old(generations)
        invariant old(trace) <= trace && Frozen(|old(trace)|, generations)
        decreases |staging|
      {
        var name :| name in staging.Keys;
        RemoveStaging(name);
      }
    }

    method SweepRetired()
      modifies this
      ensures retired == map[] && staging == old(staging) && generations == old(generations)
      ensures old(trace) <= trace && Frozen(|old(trace)|, generations)
    {
      while retired != map[]
        invariant staging == old(staging) && generations == old(generations)
        invariant old(trace) <= trace && Frozen(|old(trace)|, generations)
        decreases |retired|
      {
        var name :| name in retired.Keys;
        RemoveRetired(name);
      }
    }

    /** Writes the staging directory step by step; `writes` counts the steps before one of them throws. */
    method Stage(name: nat, tree: Tree, writes: nat) returns (ok: bool)
      requires name !in staging
      modifies this
      ensures retired == old(retired) && generations == old(generations)
      ensures staging.Keys == old(staging).Keys + {name} && staging - {name} == old(staging)
      ensures old(trace) <= trace && Frozen(|old(trace)|, generations)
      ensures ok <==> |Writes(tree)| <= writes
      ensures ok ==> staging[name] == Apply(map[], Writes(tree))
    {
      var all := Writes(tree);
      WriteStaging(name, map[]);
      var files: Files := map[];
      assert all[..0] == [];
      for i := 0 to |all|
        invariant name in staging && staging == old(staging)[name := files]
        invariant retired == old(retired) && generations == old(generations)
        invariant old(trace) <= trace && Frozen(|old(trace)|, generations)
        invariant files == Apply(map[], all[..i]) && i <= writes
      {
        if i == writes { return false; }
        PrefixGrows(all, i);
        ApplyConcat(map[], all[..i], [all[i]]);
        assert [all[i]][1..] == [];
        assert Apply(files, [all[i]]) == files[all[i].0 := all[i].1];
        files := files[all[i].0 := all[i].1];
        WriteStaging(name, files);
      }
      assert all[..|all|] == all;
      return true;
    }

    /**
     * Publishing a built generation. Whatever step it stops at, `generations/`
     * holds what it held, or that and the complete new generation. When it
     * returns, even by a thrown error, no staging directory is left.
     */
    method Publish(name: nat, tree: Tree, writes: nat) returns (r: Result<Digest, PublishError>)
      requires Lists(DeclaredIds(tree.manifest.body), tree.segments.Keys)
      modifies this
      ensures staging == map[] && retired == old(retired)
      ensures old(trace) <= trace
      ensures forall i :: |old(trace)| <= i < |trace| ==>
        trace[i].generations == old(generations) || Published(old(generations), trace[i].generations, tree)
      ensures r.Success? ==> r.value == tree.manifest.generationId && r.value in generations
      ensures generations == old(generations) || Published(old(generations), generations, tree)
      ensures r.Success? <==>
        |Writes(tree)| <= writes
        && (tree.manifest.generationId in old(generations) ==>
              ManifestOn(old(generations)[tree.manifest.generationId]) == Some(tree.manifest))
      ensures r.Failure? ==> (r.error == Thrown <==> |Writes(tree)| > writes)
    {
      SweepStaging();
      var ok := Stage(name, tree, writes);
      if !ok {
        RemoveStaging(name);
        return Failure(Thrown);
      }
      var id := tree.manifest.generationId;
      if id in generations {
        var same := ManifestOn(generations[id]) == Some(tree.manifest);
        RemoveStaging(name);
        return if same then Success(id) else Failure(DiffersUnderIdentity);
      }
      WritesComplete(tree);
      generations, staging := generations[id := staging[name]], staging - {name};
      trace := trace + [Now()];
      return Success(id);
    }

    /**
     * Deletes every generation but the kept one. Whatever step it stops at, the
     * kept generation is in place, untouched, and so is every other one that is
     * still in `generations/`. When it returns, no retired directory is left.
     */
    method Retire(keep: Digest, names: nat -> nat) returns (retiredCount: Option<nat>)
      modifies this
      ensures retiredCount.None? <==> keep !in old(generations)
      ensures retiredCount.None? ==> generations == old(generations) && trace == old(trace)
      ensures staging == old(staging)
      ensures old(trace) <= trace
      ensures forall i :: |old(trace)| <= i < |trace| ==> Keeps(old(generations), trace[i].generations, keep)
      ensures retiredCount.Some? ==>
        retired == map[] && generations == map[keep := old(generations)[keep]] && retiredCount.value == |old(generations)| - 1
    {
      if keep !in generations { return None; }
      SweepRetired();
      var count := 0;
      while exists id | id in generations.Keys :: id != keep
        invariant retired == map[] && staging == old(staging)
        invariant Keeps(old(generations), generations, keep)
        invariant |generations| + count == |old(generations)|
        invariant old(trace) <= trace
        invariant forall i :: |old(trace)| <= i < |trace| ==> Keeps(old(generations), trace[i].generations, keep)
        decreases |generations|
      {
        var id :| id in generations.Keys && id != keep;
        var debris := names(count);
        retired, generations := retired[debris := generations[id]], generations - {id};
        trace := trace + [Now()];
        RemoveRetired(debris);
        count := count + 1;
      }
      assert generations.Keys == {keep};
      return Some(count);
    }
  }

  /** One call, the input of its steps, and where it is killed, if it is. */
  datatype Call =
    | BuildCall(name: nat, tree: Tree, writes: nat, killedAt: Option<nat>)
    | RetireCall(keep: Digest, names: nat -> nat, killedAt: Option<nat>)

  /** A build publishes what it built. */
  ghost predicate ProperCall(k: Kernel, call: Call) { call.BuildCall? ==> Genuine(k, call.tree) }

  ghost predicate AllSafe(k: Kernel, trace: seq<State>) { forall i :: 0 <= i < |trace| ==> Safe(k, trace[i]) }

  /** The process dies: the directory is left as one of the states it went through. */
  method Kill(root: RetrievalRoot, at: nat)
    requires at < |root.trace|
    modifies root
    ensures root.trace == old(root.trace) && root.Now() == root.trace[at]
  {
    var state := root.trace[at];
    root.staging, root.retired, root.generations := state.staging, state.retired, state.generations;
  }

  /** Any run of builds and retirements, each killed at any step or not at all, only ever goes through safe states. */
  method Run(ghost k: Kernel, root: RetrievalRoot, calls: seq<Call>)
    requires Safe(k, root.Now()) && AllSafe(k, root.trace)
    requires forall i :: 0 <= i < |calls| ==> ProperCall(k, calls[i])
    modifies root
    ensures Safe(k, root.Now()) && AllSafe(k, root.trace)
  {
    for i := 0 to |calls|
      invariant Safe(k, root.Now()) && AllSafe(k, root.trace)
    {
      One(k, root, calls[i]);
    }
  }

  method One(ghost k: Kernel, root: RetrievalRoot, call: Call)
    requires Safe(k, root.Now()) && AllSafe(k, root.trace) && ProperCall(k, call)
    modifies root
    ensures Safe(k, root.Now()) && AllSafe(k, root.trace)
    ensures call.killedAt.None? && call.BuildCall? ==> root.staging == map[]
    ensures call.killedAt.None? && call.RetireCall? && call.keep in old(root.generations) ==> root.retired == map[]
    ensures call.RetireCall? && call.keep in old(root.generations) ==>
      call.keep in root.generations && root.generations[call.keep] == old(root.generations)[call.keep]
  {
    match call
    case BuildCall(name, tree, writes, killedAt) => var _ := BuildOrDie(k, root, name, tree, writes, killedAt);
    case RetireCall(keep, names, killedAt) => RetireOrDie(k, root, keep, names, killedAt);
  }

  /** What is built from any safe directory is published, unless a write fails: nothing else holds its identity. */
  method BuildOrDie(ghost k: Kernel, root: RetrievalRoot, name: nat, tree: Tree, writes: nat, killedAt: Option<nat>)
    returns (published: Result<Digest, PublishError>)
    requires Safe(k, root.Now()) && AllSafe(k, root.trace) && Genuine(k, tree)
    modifies root
    ensures Safe(k, root.Now()) && AllSafe(k, root.trace)
    ensures killedAt.None? ==> root.staging == map[]
    ensures k.Valid() ==>
      published == if |Writes(tree)| <= writes then Success(tree.manifest.generationId) else Failure(Thrown)
  {
    ghost var before := root.Now();
    var start := |root.trace|;
    GenuineLists(k, tree);
    if k.Valid() { SameIdentity(k, before, tree); }
    published := root.Publish(name, tree, writes);
    PublishingIsSafe(k, before, root.trace, start, tree);
    PublishedIsSafe(k, before, root.Now(), tree);
    if killedAt.Some? && start + killedAt.value < |root.trace| { Kill(root, start + killedAt.value); }
  }

  method RetireOrDie(ghost k: Kernel, root: RetrievalRoot, keep: Digest, names: nat -> nat, killedAt: Option<nat>)
    requires Safe(k, root.Now()) && AllSafe(k, root.trace)
    modifies root
    ensures Safe(k, root.Now()) && AllSafe(k, root.trace)
    ensures killedAt.None? && keep in old(root.generations) ==> root.retired == map[]
    ensures keep in old(root.generations) ==> keep in root.generations && root.generations[keep] == old(root.generations)[keep]
  {
    ghost var before := root.Now();
    var start := |root.trace|;
    var done := root.Retire(keep, names);
    if done.Some? {
      forall j | start <= j < |root.trace| ensures Safe(k, root.trace[j]) { KeptIsSafe(k, before, root.trace[j], keep); }
      KeptIsSafe(k, before, root.Now(), keep);
    }
    if killedAt.Some? && start + killedAt.value < |root.trace| { Kill(root, start + killedAt.value); }
  }

  function ManifestOn(files: Files): Option<GenerationManifest> {
    if ManifestFile in files && files[ManifestFile].ManifestText? then Some(files[ManifestFile].generation) else None
  }

  /** Exactly one complete generation more, under its own identity. */
  ghost predicate Published(before: map<Digest, Files>, after: map<Digest, Files>, tree: Tree) {
    var id := tree.manifest.generationId;
    id !in before && id in after && after == before[id := after[id]] && Complete(after[id], tree)
  }

  /** Nothing added or changed, and the kept generation in place. */
  ghost predicate Keeps(before: map<Digest, Files>, after: map<Digest, Files>, keep: Digest) {
    keep in after && after.Keys <= before.Keys && forall id :: id in after ==> after[id] == before[id]
  }

  // ---------------------------------------------------------------- every crash point is safe

  lemma GenuineLists(k: Kernel, tree: Tree)
    requires Genuine(k, tree)
    ensures Lists(DeclaredIds(tree.manifest.body), tree.segments.Keys)
  {
    var input :| Buildable(k, input) && IsBuilt(k, input, tree);
    assert tree.segments.Keys == SegmentIds(k, input.lineage, input.atoms);
  }

  lemma PublishedIsSafe(k: Kernel, before: State, after: State, tree: Tree)
    requires Genuine(k, tree)
    requires Safe(k, before) && (after.generations == before.generations || Published(before.generations, after.generations, tree))
    ensures Safe(k, after)
  {
    forall id | id in after.generations ensures CompleteUnder(k, id, after.generations[id]) {
      if id in before.generations { assert CompleteUnder(k, id, before.generations[id]); }
    }
  }

  lemma PublishingIsSafe(k: Kernel, before: State, trace: seq<State>, start: nat, tree: Tree)
    requires Genuine(k, tree) && Safe(k, before) && start <= |trace| && AllSafe(k, trace[..start])
    requires forall i :: start <= i < |trace| ==>
      trace[i].generations == before.generations || Published(before.generations, trace[i].generations, tree)
    ensures AllSafe(k, trace)
  {
    forall i | 0 <= i < |trace| ensures Safe(k, trace[i]) {
      if i < start { assert Safe(k, trace[..start][i]); } else { PublishedIsSafe(k, before, trace[i], tree); }
    }
  }

  /** The identity is a digest of everything else in the manifest. */
  lemma IdentityFixesManifest(k: Kernel, s: Tree, t: Tree)
    requires k.Valid() && Genuine(k, s) && Genuine(k, t) && s.manifest.generationId == t.manifest.generationId
    ensures s.manifest == t.manifest
  {
    k.ShaInjective(GenerationIdentity(s.manifest.body), GenerationIdentity(t.manifest.body));
  }

  lemma CompleteManifest(files: Files, tree: Tree)
    requires Complete(files, tree)
    ensures ManifestOn(files) == Some(tree.manifest)
  {
    assert Belongs(ManifestFile, tree) && ManifestFile in files;
    assert files[ManifestFile] == Expected(ManifestFile, tree);
  }

  lemma SameIdentityUnder(k: Kernel, files: Files, tree: Tree)
    requires k.Valid() && Genuine(k, tree) && CompleteUnder(k, tree.manifest.generationId, files)
    ensures ManifestOn(files) == Some(tree.manifest)
  {
    var held: Tree :| held.manifest.generationId == tree.manifest.generationId && Complete(files, held) && Genuine(k, held);
    IdentityFixesManifest(k, held, tree);
    CompleteManifest(files, held);
  }

  /** So a build never finds another generation under the identity of its own. */
  lemma SameIdentity(k: Kernel, s: State, tree: Tree)
    requires k.Valid() && Safe(k, s) && Genuine(k, tree)
    ensures tree.manifest.generationId in s.generations ==>
      ManifestOn(s.generations[tree.manifest.generationId]) == Some(tree.manifest)
  {
    var id := tree.manifest.generationId;
    if id in s.generations {
      assert CompleteUnder(k, id, s.generations[id]);
      SameIdentityUnder(k, s.generations[id], tree);
    }
  }

  lemma KeptIsSafe(k: Kernel, before: State, after: State, keep: Digest)
    requires Safe(k, before) && Keeps(before.generations, after.generations, keep)
    ensures Safe(k, after) && after.generations[keep] == before.generations[keep]
  {
  }

  // ---------------------------------------------------------------- what a crash leaves can be served

  /** A complete directory holds one tree only. */
  lemma CompleteHoldsOne(files: Files, s: Tree, t: Tree)
    requires Complete(files, s) && Complete(files, t)
    ensures s == t
  {
    assert Belongs(ManifestFile, s) && Belongs(ManifestFile, t) && ManifestFile in files;
    assert files[ManifestFile] == Expected(ManifestFile, s) == Expected(ManifestFile, t);
    forall id ensures id in s.segments <==> id in t.segments {
      assert Belongs(SegmentDirectory(id), s) <==> SegmentDirectory(id) in files;
      assert Belongs(SegmentDirectory(id), t) <==> SegmentDirectory(id) in files;
    }
    forall id | id in s.segments ensures s.segments[id] == t.segments[id] {
      var path := PlaneFile(id, FactsPlane);
      assert Belongs(path, s) && path in files;
      assert files[path] == Expected(path, s) == Expected(path, t);
    }
  }

  /**
   * Whatever builds and retirements there were, and wherever each was killed:
   * every generation in the directory passes the full warm validation under
   * its own pointer, and holds exactly the atoms it was built from.
   */
  lemma EveryGenerationWarms(k: Kernel, s: State, id: Digest, tree: Tree) returns (input: BuildInput)
    requires k.Valid() && Safe(k, s) && id in s.generations && Complete(s.generations[id], tree)
    ensures ActiveOf(k, tree).generationId == id && ValidTree(k, input.baseline, ActiveOf(k, tree), tree)
    ensures AllDeclared(tree) && multiset(Concat(Groups(k, input, tree))) == multiset(input.atoms)
    ensures Indexes(k, Warmed(tree), Groups(k, input, tree))
  {
    assert CompleteUnder(k, id, s.generations[id]);
    var held: Tree :| held.manifest.generationId == id && Complete(s.generations[id], held) && Genuine(k, held);
    CompleteHoldsOne(s.generations[id], held, tree);
    input :| Buildable(k, input) && IsBuilt(k, input, tree);
    BuildThenWarm(k, input, tree);
    WarmedHoldsAtoms(k, input, tree);
  }
}
