/**
 * src/ccaudio/extract_url/json2parquet.py: the sorted JSONL files of a crawl are cut
 * into groups of 100, and each group's readable files are concatenated into one
 * parquet file named by the group's index. Reading a file is a parameter (None where
 * `pd.read_json` raises); the process pool and the file system are not modelled.
 */
module Json2Parquet {
  import opened Wrappers
  import opened Text

  const FilesPerGroup: nat := 100
  const OutputDir: string := "data/cc/audio/2025-18-parquet"

  function Min(a: int, b: int): int {
    if a <= b then a else b
  }

  /** `len(range(0, n, 100))`. */
  function GroupCount(n: nat): nat {
    (n + FilesPerGroup - 1) / FilesPerGroup
  }

  /** `[input_files[i : i + files_per_group] for i in range(0, len(input_files), files_per_group)]`. */
  function FileGroups(files: seq<string>): (groups: seq<seq<string>>)
    ensures |groups| == GroupCount(|files|)
    ensures forall g :: 0 <= g < |groups| ==> groups[g] == files[g * FilesPerGroup .. Min(g * FilesPerGroup + FilesPerGroup, |files|)]
  {
    seq(GroupCount(|files|), g requires 0 <= g < GroupCount(|files|) =>
      files[g * FilesPerGroup .. Min(g * FilesPerGroup + FilesPerGroup, |files|)])
  }

  /** The groups laid end to end. */
  function Concat<T>(parts: seq<seq<T>>): seq<T> {
    if parts == [] then [] else Concat(parts[..|parts| - 1]) + parts[|parts| - 1]
  }

  /** The number of groups is ceil(n / 100): exactly enough groups of at most 100 to hold every file. */
  lemma GroupCountIsCeiling(n: nat)
    ensures GroupCount(n) * FilesPerGroup >= n
    ensures GroupCount(n) == 0 || (GroupCount(n) - 1) * FilesPerGroup < n
  {
  }

  /** Every group but the last holds exactly 100 files; the last holds between 1 and 100. */
  lemma GroupSizes(files: seq<string>)
    ensures var groups := FileGroups(files);
      && (forall g :: 0 <= g < |groups| - 1 ==> |groups[g]| == FilesPerGroup)
      && (groups != [] ==> 1 <= |groups[|groups| - 1]| <= FilesPerGroup)
  {
    var groups := FileGroups(files);
    if groups != [] {
      GroupCountIsCeiling(|files|);
    }
  }

  /** No group is empty. */
  lemma GroupsNonEmpty(files: seq<string>)
    ensures forall g :: 0 <= g < |FileGroups(files)| ==> FileGroups(files)[g] != []
  {
    GroupCountIsCeiling(|files|);
  }

  lemma {:induction false} ConcatPrefix(files: seq<string>, g: nat)
    requires g <= |FileGroups(files)|
    ensures Concat(FileGroups(files)[..g]) == files[..Min(g * FilesPerGroup, |files|)]
  {
    var groups := FileGroups(files);
    if g == 0 {
      assert groups[..0] == [];
    } else {
      ConcatPrefix(files, g - 1);
      assert groups[..g][..g - 1] == groups[..g - 1];
      GroupCountIsCeiling(|files|);
      var a, b := (g - 1) * FilesPerGroup, Min(g * FilesPerGroup, |files|);
      assert files[..a] + files[a..b] == files[..b];
    }
  }

  /** Laying the groups end to end gives back the input list, in its order. */
  lemma ConcatFileGroups(files: seq<string>)
    ensures Concat(FileGroups(files)) == files
  {
    var groups := FileGroups(files);
    ConcatPrefix(files, |groups|);
    GroupCountIsCeiling(|files|);
    assert groups[..|groups|] == groups;
  }

  // ---------------------------------------------------------------------------
  // process_group

  /** A parquet file written: its path and its rows. */
  datatype Output<Row> = Output(path: string, rows: seq<Row>)

  /** `os.path.join(output_dir, f"group_{group_idx:05d}.parquet")`. */
  function GroupPath(groupIdx: nat): string {
    OutputDir + "/group_" + ZeroPad(groupIdx, 5) + ".parquet"
  }

  /** The frames of the files that could be read, in file order. */
  function Frames<Row>(files: seq<string>, read: string -> Option<seq<Row>>): (frames: seq<seq<Row>>)
    ensures |frames| <= |files|
  {
    if files == [] then []
    else
      var frame := read(files[|files| - 1]);
      Frames(files[..|files| - 1], read) + (if frame.Some? then [frame.value] else [])
  }

  /** What `process_group((group_idx, files))` writes, if anything. */
  function GroupOutput<Row>(groupIdx: nat, files: seq<string>, read: string -> Option<seq<Row>>): Option<Output<Row>> {
    var frames := Frames(files, read);
    if frames == [] then None else Some(Output(GroupPath(groupIdx), Concat(frames)))
  }

  /** `process_group((group_idx, files))`: reads each file, skipping those that fail, then writes the concatenation. */
  method ProcessGroup<Row>(groupIdx: nat, files: seq<string>, read: string -> Option<seq<Row>>)
    returns (written: Option<Output<Row>>)
    ensures written == GroupOutput(groupIdx, files, read)
  {
    var dfs: seq<seq<Row>> := [];
    for n := 0 to |files|
      invariant dfs == Frames(files[..n], read)
    {
      assert files[..n + 1][..n] == files[..n];
      var df := read(files[n]);
      if df.Some? {
        dfs := dfs + [df.value];
      }
    }
    assert files[..|files|] == files;
    if dfs != [] {
      var dfAll := Concat(dfs);
      var outPath := GroupPath(groupIdx);
      written := Some(Output(outPath, dfAll));
    } else {
      written := None;
    }
  }

  /** A group is written iff at least one of its files could be read. */
  lemma {:induction false} FramesEmptyIff<Row>(files: seq<string>, read: string -> Option<seq<Row>>)
    ensures Frames(files, read) == [] <==> forall k :: 0 <= k < |files| ==> read(files[k]).None?
  {
    if files != [] {
      var init := files[..|files| - 1];
      FramesEmptyIff(init, read);
      assert forall k :: 0 <= k < |init| ==> init[k] == files[k];
    }
  }

  /**
   * The rows written are those of the readable files, in order: an unreadable file
   * contributes nothing, and a readable one contributes all its rows after those of
   * the files before it.
   */
  lemma FramesSnoc<Row>(files: seq<string>, file: string, read: string -> Option<seq<Row>>)
    ensures Concat(Frames(files + [file], read)) ==
      Concat(Frames(files, read)) + (if read(file).Some? then read(file).value else [])
  {
    assert (files + [file])[..|files|] == files;
    var frames := Frames(files, read);
    if read(file).Some? {
      assert Frames(files + [file], read) == frames + [read(file).value];
      assert (frames + [read(file).value])[..|frames|] == frames;
    } else {
      assert Frames(files + [file], read) == frames;
    }
  }

  /** Outputs are named by group index with at least five digits, so distinct groups never share a file. */
  lemma GroupPathInjective(i: nat, j: nat)
    requires GroupPath(i) == GroupPath(j)
    ensures i == j
  {
    var prefix := OutputDir + "/group_";
    var zi, zj := ZeroPad(i, 5), ZeroPad(j, 5);
    assert |zi| == |zj|;
    assert zi == GroupPath(i)[|prefix|..|prefix| + |zi|];
    assert zj == GroupPath(j)[|prefix|..|prefix| + |zj|];
    ZeroPadInjective(i, j, 5);
  }

  /** `executor.map(process_group, enumerate(file_groups))`: what each group writes, in group order. */
  function AllOutputs<Row>(files: seq<string>, read: string -> Option<seq<Row>>): (outputs: seq<Option<Output<Row>>>)
    ensures |outputs| == GroupCount(|files|)
  {
    var groups := FileGroups(files);
    seq(|groups|, g requires 0 <= g < |groups| => GroupOutput(g, groups[g], read))
  }

  /** Group `g` is written to its own path iff one of its files could be read. */
  lemma AllOutputsSpec<Row>(files: seq<string>, read: string -> Option<seq<Row>>, g: nat)
    requires g < GroupCount(|files|)
    ensures var out := AllOutputs(files, read)[g];
      && (out.Some? <==> exists k :: g * FilesPerGroup <= k < |files| && k < g * FilesPerGroup + FilesPerGroup && read(files[k]).Some?)
      && (out.Some? ==> out.value.path == GroupPath(g))
  {
    var group := FileGroups(files)[g];
    FramesEmptyIff(group, read);
    var lo := g * FilesPerGroup;
    if exists k :: lo <= k < |files| && k < lo + FilesPerGroup && read(files[k]).Some? {
      var k :| lo <= k < |files| && k < lo + FilesPerGroup && read(files[k]).Some?;
      assert group[k - lo] == files[k];
    }
  }
}
