/** What a batch leaves behind: the `(name, file, size)` records a run
    collects, the file writes it performs, and the asset directory those
    writes produce when a later write to a path replaces an earlier one. */
module Assets {
  import opened Seqs
  import opened IconTable
  import opened FileNames

  /** One entry of `generated_files`. */
  datatype Record = Record(name: string, file: string, size: nat)

  /** Saving `content` as the PNG at `path` in the output directory. */
  datatype Write<T> = Write(path: string, content: T)

  /** The record a run collects for `slot`. */
  function RecordFor(slot: IconSlot): (r: Record)
    ensures r.name == slot.name && r.size == slot.size
  {
    Record(slot.name, FileName(slot.name), slot.size)
  }

  /** The paths `writes` saves to. */
  function Written<T>(writes: seq<Write<T>>): set<string> {
    set i | 0 <= i < |writes| :: writes[i].path
  }

  /** The output directory after `writes`, starting from the files already
      in `before`: each path holds what was last written to it, and a file
      no write touches keeps its old content. */
  function Directory<T>(before: map<string, T>, writes: seq<Write<T>>): (dir: map<string, T>)
    ensures dir.Keys == before.Keys + Written(writes)
    ensures forall p :: p in before && p !in Written(writes) ==> dir[p] == before[p]
    decreases |writes|
  {
    if |writes| == 0 then before
    else
      var init, last := writes[..|writes| - 1], writes[|writes| - 1];
      assert Written(writes) == Written(init) + {last.path} by {
        forall p | p in Written(init) ensures p in Written(writes) {
          var i :| 0 <= i < |init| && init[i].path == p;
          assert writes[i].path == p;
        }
      }
      Directory(before, init)[last.path := last.content]
  }

  /** A file holds what the last write to its path put there, whatever the
      directory held before. */
  lemma {:induction false} LastWriteWins<T>(before: map<string, T>, writes: seq<Write<T>>, i: nat)
    requires i < |writes|
    requires forall j :: i < j < |writes| ==> writes[j].path != writes[i].path
    ensures Directory(before, writes)[writes[i].path] == writes[i].content
    decreases |writes|
  {
    if i < |writes| - 1 {
      var init := writes[..|writes| - 1];
      assert forall j :: i < j < |init| ==> init[j].path == writes[j].path;
      LastWriteWins(before, init, i);
    }
  }

  /** No two writes to the same path carry different contents. */
  predicate Consistent<T(==)>(writes: seq<Write<T>>) {
    forall i, j :: 0 <= i < |writes| && 0 <= j < |writes| && writes[i].path == writes[j].path
      ==> writes[i].content == writes[j].content
  }

  /** When writes to a path always agree, overwriting loses nothing: every
      write's content is what its file finally holds. */
  lemma {:induction false} ConsistentWritesKept<T>(before: map<string, T>, writes: seq<Write<T>>, i: nat)
    requires Consistent(writes) && i < |writes|
    ensures Directory(before, writes)[writes[i].path] == writes[i].content
    decreases |writes|
  {
    var n := |writes| - 1;
    if i < n && writes[n].path != writes[i].path {
      var init := writes[..n];
      assert Consistent(init) by {
        forall a, b | 0 <= a < |init| && 0 <= b < |init| && init[a].path == init[b].path
          ensures init[a].content == init[b].content
        {
          assert writes[a] == init[a] && writes[b] == init[b];
        }
      }
      ConsistentWritesKept(before, init, i);
    }
  }

  /** The paths written are exactly the file names the writes were given. */
  lemma WrittenPaths<T>(writes: seq<Write<T>>, paths: seq<string>)
    requires |writes| == |paths|
    requires forall i :: 0 <= i < |writes| ==> writes[i].path == paths[i]
    ensures Written(writes) == set p | p in paths
  {
    forall p | p in Written(writes)
      ensures p in paths
    {
      var i :| 0 <= i < |writes| && writes[i].path == p;
      assert paths[i] == p;
    }
    forall p | p in paths
      ensures p in Written(writes)
    {
      var i :| 0 <= i < |paths| && paths[i] == p;
      assert writes[i].path == p;
    }
  }

  /** One write per table slot, in table order, under the slot's file name,
      of content that depends only on the slot's side. */
  predicate FollowsSlots<T(==)>(writes: seq<Write<T>>, content: nat -> T) {
    |writes| == |GeneratorSlots| &&
    forall i :: 0 <= i < |GeneratorSlots| ==>
      writes[i] == Write(FileName(GeneratorSlots[i].name), content(GeneratorSlots[i].size))
  }

  /** Such writes over the real table add 15 distinct files to the
      catalogue, each holding the content for its slots' side; every other
      file, `Contents.json` among them, keeps its old content. */
  lemma TableDirectory<T>(before: map<string, T>, writes: seq<Write<T>>, content: nat -> T)
    requires FollowsSlots(writes, content)
    ensures var dir, files := Directory(before, writes), Elems(Files(GeneratorSlots));
      && |files| == 15
      && dir.Keys == before.Keys + files
      && (forall i :: 0 <= i < |GeneratorSlots| ==>
        FileName(GeneratorSlots[i].name) in dir && dir[FileName(GeneratorSlots[i].name)] == content(GeneratorSlots[i].size))
      && (forall p :: p in before && p !in files ==> dir[p] == before[p])
      && ("Contents.json" in before ==> dir["Contents.json"] == before["Contents.json"])
      && (before == map[] ==> |dir| == 15)
  {
    SharedFilesKeepSize();
    assert Consistent(writes);
    forall i | 0 <= i < |GeneratorSlots|
      ensures Directory(before, writes)[FileName(GeneratorSlots[i].name)] == content(GeneratorSlots[i].size)
    {
      ConsistentWritesKept(before, writes, i);
    }
    WrittenPaths(writes, Files(GeneratorSlots));
    DistinctFileCount();
    ContentsFileNeverWritten(GeneratorSlots);
  }
}
