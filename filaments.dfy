/** The grouped view of a STAR file (class readFilamentsFromStarFile): the
    particles of each filament stored column by column under a dense filament
    number, with the operations that edit and save them. */
module Filaments {
  import opened Errors
  import opened PyText
  import Dicts
  import opened Sorting
  import opened Pivot
  import opened Values
  import opened StarScan
  import opened Grouping
  import opened Seqs
  import opened StarWrite

  type Dict<V> = Dicts.Dict<V>

  /** What a successful load determines: the line loop's result and the
      filaments built from it. */
  datatype Loaded = Loaded(scan: Scan, filaments: seq<Filament>)

  /** The constructor's reading of a file given as its raw lines; `num`
      stands for float(). */
  function LoadSpec(raw: seq<string>, num: string -> Option<real>): (r: Result<Loaded>)
    ensures r.Ok? ==> WellFormed(r.value.scan) && Dicts.Valid(r.value.scan.headers)
    ensures r.Ok? ==> AllWithin(r.value.filaments, |r.value.scan.rows|)
  {
    var sc :- ScanAll(CleanLines(raw), FilamentReader);
    var fs :- GroupFilaments(sc, num);
    Ok(Loaded(sc, fs))
  }

  /** A successful load groups the rows it scanned: every filament is exact
      and track-sorted, the filaments ascend by (micrograph, tube ID), and
      they hold every row once. */
  lemma LoadSpecBuilt(raw: seq<string>, num: string -> Option<real>)
    requires LoadSpec(raw, num).Ok?
    ensures Built(LoadSpec(raw, num).value, num)
    ensures ScanAll(CleanLines(raw), FilamentReader) == Ok(LoadSpec(raw, num).value.scan)
    ensures var ld := LoadSpec(raw, num).value;
            && "rlnHelicalTubeID" in ld.scan.headers.vals
            && (forall k :: 0 <= k < |ld.filaments| ==>
                  Good(ld.scan, ld.scan.headers.vals["rlnHelicalTubeID"], num, ld.filaments[k]))
            && Chain(ld.filaments)
            && (forall i: nat :: i < |ld.scan.rows| ==> Covered(ld.filaments, i))
            && TotalSize(ld.filaments) == |ld.scan.rows|
  {
    var ld := LoadSpec(raw, num).value;
    GroupFilamentsSpec(ld.scan, num);
  }

  /** Once the lines are scanned and the tube-ID column is found, loading
      succeeds or fails with the micrograph loop. */
  lemma LoadSpecOf(raw: seq<string>, num: string -> Option<real>, sc: Scan)
    requires ScanAll(CleanLines(raw), FilamentReader) == Ok(sc) && WellFormed(sc)
    ensures var tubeCol := Dicts.Get(sc.headers, "rlnHelicalTubeID");
            tubeCol.Err? ==> LoadSpec(raw, num) == Err(tubeCol.error)
    ensures var tubeCol := Dicts.Get(sc.headers, "rlnHelicalTubeID");
            tubeCol.Ok? ==>
              var all := AllFilaments(sc, SortedKeys(sc.micrographs), tubeCol.value, num);
              && (LoadSpec(raw, num).Ok? <==> all.Ok?)
              && (all.Err? ==> LoadSpec(raw, num).error == all.error)
              && (all.Ok? ==> LoadSpec(raw, num).value == Loaded(sc, all.value))
  {
  }

  /** ld's filaments are the grouping of its data rows. */
  ghost predicate Built(ld: Loaded, num: string -> Option<real>)
  {
    WellFormed(ld.scan) && GroupFilaments(ld.scan, num) == Ok(ld.filaments) && AllWithin(ld.filaments, |ld.scan.rows|)
  }

  /** Rows of tokens as rows of cells. */
  function CellRows(rows: seq<seq<string>>): (r: seq<seq<Value>>)
    ensures |r| == |rows| && forall j :: 0 <= j < |rows| ==> r[j] == Texts(rows[j])
  {
    seq(|rows|, j requires 0 <= j < |rows| => Texts(rows[j]))
  }

  /** The rows of a group as cells, turned column-major by list(zip(*rows)):
      as many columns as the shortest row has cells, each as long as the group. */
  function Columns(rows: seq<seq<string>>, ids: seq<nat>): (cols: seq<seq<Value>>)
    requires Within(ids, |rows|)
    ensures Rectangular(cols, |ids|)
    ensures forall c, j :: 0 <= c < |cols| && 0 <= j < |ids| ==> c < |rows[ids[j]]| && cols[c][j] == Text(rows[ids[j]][c])
    ensures ids != [] ==> exists j :: 0 <= j < |ids| && |cols| == |rows[ids[j]]|
  {
    var cells := CellRows(Pick(rows, ids));
    ZipRectangular(cells);
    assert forall j :: 0 <= j < |ids| ==> |cells[j]| == |rows[ids[j]]| && MinWidth(cells) <= |cells[j]|;
    Zip(cells)
  }

  /** Every data row has the same number of tokens, as in a well-formed
      table. */
  predicate Uniform(sc: Scan)
  {
    forall i, i' :: 0 <= i < |sc.rows| && 0 <= i' < |sc.rows| ==> |sc.rows[i]| == |sc.rows[i']|
  }

  /** A uniform table whose rlnMicrographName column, as finally declared,
      holds the name each row was filed under (the column is not declared
      anew after the data rows begin). */
  predicate Regular(sc: Scan)
  {
    && WellFormed(sc) && Uniform(sc)
    && "rlnMicrographName" in sc.headers.vals
    && forall i :: 0 <= i < |sc.rows| ==> PyGet(sc.rows[i], sc.headers.vals["rlnMicrographName"]) == Ok(sc.micrographs[i])
  }

  /** The columns of a group of rows that all have w tokens: w columns,
      and cell j of column c, written by str(), is token c of the j-th row. */
  lemma UniformColumns(rows: seq<seq<string>>, ids: seq<nat>, w: nat)
    requires Within(ids, |rows|) && ids != [] && forall j :: 0 <= j < |ids| ==> |rows[ids[j]]| == w
    ensures |Columns(rows, ids)| == w
    ensures forall c, j :: 0 <= c < w && 0 <= j < |ids| ==> Render(Columns(rows, ids)[c][j]) == rows[ids[j]][c]
  {
  }

  /** Every filament the grouping builds has at least one row. */
  lemma GroupedNonEmpty(sc: Scan, num: string -> Option<real>, k: int)
    requires WellFormed(sc) && GroupFilaments(sc, num).Ok? && 0 <= k < |GroupFilaments(sc, num).value|
    ensures GroupFilaments(sc, num).value[k].ids != []
  {
    AllFilamentsNoneEmpty(sc, SortedKeys(sc.micrographs), sc.headers.vals["rlnHelicalTubeID"], num);
  }

  /** Every row of filament k carries the filament's pair. */
  lemma GroupedPair(sc: Scan, num: string -> Option<real>, k: int)
    requires WellFormed(sc) && GroupFilaments(sc, num).Ok? && 0 <= k < |GroupFilaments(sc, num).value|
    ensures "rlnHelicalTubeID" in sc.headers.vals
    ensures var f := GroupFilaments(sc, num).value[k];
            forall j :: 0 <= j < |f.ids| ==> Carries(sc, sc.headers.vals["rlnHelicalTubeID"], f.ids[j], f.mic, f.tube)
  {
    GroupFilamentsSpec(sc, num);
    assert Good(sc, sc.headers.vals["rlnHelicalTubeID"], num, GroupFilaments(sc, num).value[k]);
  }

  /** Every filament's rows lie among n rows. */
  predicate AllWithin(fs: seq<Filament>, n: nat)
  {
    forall k :: 0 <= k < |fs| ==> Within(fs[k].ids, n)
  }

  /** The columns of each group, in order. */
  function Blocks(rows: seq<seq<string>>, fs: seq<Filament>): (r: seq<seq<seq<Value>>>)
    requires AllWithin(fs, |rows|)
    ensures |r| == |fs| && forall k :: 0 <= k < |fs| ==> r[k] == Columns(rows, fs[k].ids)
  {
    seq(|fs|, k requires 0 <= k < |fs| => Columns(rows, fs[k].ids))
  }

  lemma BlocksAppend(rows: seq<seq<string>>, a: seq<Filament>, b: seq<Filament>)
    requires AllWithin(a, |rows|) && AllWithin(b, |rows|)
    ensures AllWithin(a + b, |rows|) && Blocks(rows, a + b) == Blocks(rows, a) + Blocks(rows, b)
  {
    assert forall k :: 0 <= k < |a| ==> (a + b)[k] == a[k];
    assert forall k :: |a| <= k < |a| + |b| ==> (a + b)[k] == b[k - |a|];
    Pointwise(Blocks(rows, a + b), Blocks(rows, a) + Blocks(rows, b));
  }

  /** self.filaments as the constructor leaves it: filament numbers run
      from 0 to the number of groups, and number k holds the columns of
      group k. */
  ghost predicate Stores(fm: map<int, seq<seq<Value>>>, rows: seq<seq<string>>, fs: seq<Filament>)
    requires AllWithin(fs, |rows|)
  {
    && (forall k :: k in fm <==> 0 <= k < |fs|)
    && (forall k :: 0 <= k < |fs| ==> fm[k] == Columns(rows, fs[k].ids))
  }

  /** Storing the groups b after the stored groups a stores a + b. */
  lemma StoresExtend(fm: map<int, seq<seq<Value>>>, rows: seq<seq<string>>, a: seq<Filament>, b: seq<Filament>)
    requires AllWithin(a, |rows|) && AllWithin(b, |rows|) && Stores(fm, rows, a)
    ensures AllWithin(a + b, |rows|) && Stores(Extend(fm, |a|, Blocks(rows, b)), rows, a + b)
  {
    var fm' := Extend(fm, |a|, Blocks(rows, b));
    ExtendAt(fm, |a|, Blocks(rows, b));
    forall k | 0 <= k < |a| + |b| ensures fm'[k] == Columns(rows, (a + b)[k].ids) {
      if k < |a| {
        assert (a + b)[k] == a[k];
      } else {
        assert (a + b)[k] == b[k - |a|];
      }
    }
  }

  /** The first loop of the micrograph loop's body: each row of the
      micrograph is filed under its tube-id token by its number within the
      micrograph; a row too short for the column stops the reader. */
  method BucketRows(micData: seq<seq<string>>, tubeCol: int) returns (err: Option<PyError>, positions: Dict<seq<nat>>, ghost toks: seq<string>)
    ensures err.None? <==> TubeTokens(micData, tubeCol).Ok?
    ensures err.Some? ==> err.value == IndexError
    ensures err.None? ==> TubeTokens(micData, tubeCol) == Ok(toks) && Bucketed(positions, toks)
  {
    positions := Dicts.Empty();
    toks := [];
    assert micData[..0] == [];
    for j := 0 to |micData|
      invariant TubeTokens(micData[..j], tubeCol) == Ok(toks) && Bucketed(positions, toks)
    {
      var t := PyGet(micData[j], tubeCol);
      if t.Err? {
        TubeTokensFail(micData, tubeCol, j);
        return Some(t.error), positions, toks;
      }
      TubeTokensSnoc(micData, tubeCol, j, toks);
      positions := AddPosition(positions, toks, t.value, j);
      toks := toks + [t.value];
    }
    assert micData[..|micData|] == micData;
    err := None;
  }

  /** tube_positions[t].append(j) for the next row j, starting the list of
      a tube id seen for the first time. */
  method AddPosition(positions: Dict<seq<nat>>, ghost toks: seq<string>, t: string, j: nat) returns (positions': Dict<seq<nat>>)
    requires Bucketed(positions, toks) && j == |toks|
    ensures Bucketed(positions', toks + [t])
  {
    BucketedStep(positions, toks, t);
    positions' := Dicts.Put(positions, t, (if t in positions.vals then positions.vals[t] else []) + [j]);
  }

  /** A row too short for the tube-id column fails the whole micrograph. */
  lemma TubeTokensFail(data: seq<seq<string>>, col: int, j: nat)
    requires j < |data| && PyGet(data[j], col).Err?
    ensures TubeTokens(data, col).Err?
  {
  }

  /** One more row adds its token at the end. */
  lemma TubeTokensSnoc(data: seq<seq<string>>, col: int, j: nat, toks: seq<string>)
    requires j < |data| && TubeTokens(data[..j], col) == Ok(toks) && PyGet(data[j], col).Ok?
    ensures TubeTokens(data[..j + 1], col) == Ok(toks + [PyGet(data[j], col).value])
  {
    assert data[..j + 1][..j] == data[..j];
  }

  /** The sorted block of each tube id of tubes, in that order. */
  function TubeBlocks(micData: seq<seq<string>>, positions: Dict<seq<nat>>, tubes: seq<string>, hd: Dict<int>,
                      num: string -> Option<real>): (r: seq<Result<seq<seq<Value>>>>)
    requires forall t :: t in tubes ==> t in positions.vals && Within(positions.vals[t], |micData|)
    ensures |r| == |tubes|
  {
    Seqs.MapSeq(t => TubeBlock(micData, positions, t, hd, num), tubes)
  }

  /** The block of tube id t, for a tube id the bucketing saw. */
  function TubeBlock(micData: seq<seq<string>>, positions: Dict<seq<nat>>, t: string, hd: Dict<int>,
                     num: string -> Option<real>): Result<seq<seq<Value>>>
  {
    if t in positions.vals && Within(positions.vals[t], |micData|)
    then SortedBlock(micData, positions.vals[t], hd, num)
    else Ok([])
  }

  lemma TubeBlocksAt(micData: seq<seq<string>>, positions: Dict<seq<nat>>, tubes: seq<string>, hd: Dict<int>,
                     num: string -> Option<real>, q: nat)
    requires forall t :: t in tubes ==> t in positions.vals && Within(positions.vals[t], |micData|)
    requires q < |tubes|
    ensures TubeBlocks(micData, positions, tubes, hd, num)[q] == SortedBlock(micData, positions.vals[tubes[q]], hd, num)
  {
    Seqs.MapSeqAt(t => TubeBlock(micData, positions, t, hd, num), tubes, q);
    assert tubes[q] in tubes;
  }

  method SortTube(micData: seq<seq<string>>, positions: Dict<seq<nat>>, tubes: seq<string>, hd: Dict<int>,
                      num: string -> Option<real>, q: nat) returns (block: Result<seq<seq<Value>>>)
    requires forall t :: t in tubes ==> t in positions.vals && Within(positions.vals[t], |micData|)
    requires q < |tubes|
    ensures block == TubeBlocks(micData, positions, tubes, hd, num)[q]
  {
    TubeBlocksAt(micData, positions, tubes, hd, num, q);
    block := SortedBlock(micData, positions.vals[tubes[q]], hd, num);
  }

  /** The tube loop of one micrograph: for each tube id in turn, its rows
      sorted by track length are zipped into columns and stored under the
      next filament number after the nf filaments of fm; the first failing
      sort key stops the reader. */
  method StoreTubes(micData: seq<seq<string>>, positions: Dict<seq<nat>>, tubes: seq<string>, num: string -> Option<real>,
                    hd: Dict<int>, fm: map<int, seq<seq<Value>>>, nf: nat)
    returns (err: Option<PyError>, stored: map<int, seq<seq<Value>>>, count: nat)
    requires forall t :: t in tubes ==> t in positions.vals && Within(positions.vals[t], |micData|)
    ensures err.None? <==> Collect(TubeBlocks(micData, positions, tubes, hd, num)).Ok?
    ensures err.Some? ==> err.value == Collect(TubeBlocks(micData, positions, tubes, hd, num)).error
    ensures err.None? ==> count == nf + |tubes| && stored == Extend(fm, nf, Collect(TubeBlocks(micData, positions, tubes, hd, num)).value)
  {
    ghost var blocks := TubeBlocks(micData, positions, tubes, hd, num);
    ghost var vals: seq<seq<seq<Value>>> := [];
    stored, count := fm, nf;
    for q := 0 to |tubes|
      invariant Collect(blocks[..q]) == Ok(vals) && count == nf + q && stored == Extend(fm, nf, vals)
    {
      var block := SortTube(micData, positions, tubes, hd, num, q);
      CollectStep(blocks, q);
      if block.Err? {
        CollectFailed(blocks, q + 1);
        return Some(block.error), stored, count;
      }
      ExtendSnoc(fm, nf, vals, block.value);
      vals := vals + [block.value];
      stored := stored[count := block.value];
      count := count + 1;
    }
    TakeAll(blocks);
    err := None;
  }

  /** The blocks the tube loop stores are the column views of the filaments
      the grouping builds for the same tube ids, and the loop stops at the
      tube id whose filament cannot be built. */
  lemma TubeBlocksMatch(sc: Scan, m: string, idx: seq<nat>, toks: seq<string>, positions: Dict<seq<nat>>, tubes: seq<string>,
                        num: string -> Option<real>)
    requires Within(idx, |sc.rows|) && |toks| == |idx|
    requires Bucketed(positions, toks) && forall t :: t in tubes ==> t in toks
    ensures forall t :: t in tubes ==> t in positions.vals && Within(positions.vals[t], |Pick(sc.rows, idx)|)
    ensures Collect(TubeBlocks(Pick(sc.rows, idx), positions, tubes, sc.headers, num)).Ok? <==> TubeFilaments(sc, m, idx, toks, tubes, num).Ok?
    ensures TubeFilaments(sc, m, idx, toks, tubes, num).Err? ==>
              Collect(TubeBlocks(Pick(sc.rows, idx), positions, tubes, sc.headers, num)).error == TubeFilaments(sc, m, idx, toks, tubes, num).error
    ensures TubeFilaments(sc, m, idx, toks, tubes, num).Ok? ==>
              && AllWithin(TubeFilaments(sc, m, idx, toks, tubes, num).value, |sc.rows|)
              && Collect(TubeBlocks(Pick(sc.rows, idx), positions, tubes, sc.headers, num)).value == Blocks(sc.rows, TubeFilaments(sc, m, idx, toks, tubes, num).value)
  {
    var blocks := TubeBlocks(Pick(sc.rows, idx), positions, tubes, sc.headers, num);
    var rs := TubeResults(sc, m, idx, toks, tubes, num);
    forall k | 0 <= k < |tubes|
      ensures (blocks[k].Ok? <==> rs[k].Ok?) && (blocks[k].Err? ==> blocks[k].error == rs[k].error)
      ensures blocks[k].Ok? ==> rs[k].Ok? && Within(rs[k].value.ids, |sc.rows|) && blocks[k].value == Columns(sc.rows, rs[k].value.ids)
    {
      TubeBlockAgrees(sc, m, idx, toks, positions, tubes, num, k);
      TubeResultsAt(sc, m, idx, toks, tubes, num, k);
    }
    CollectAlike(blocks, rs);
    if Collect(rs).Ok? {
      CollectedBlocks(sc.rows, blocks, rs);
    }
  }

  /** When every group was built, the blocks made one by one, each the
      column view of its group, are the column views of the groups. */
  lemma CollectedBlocks(rows: seq<seq<string>>, blocks: seq<Result<seq<seq<Value>>>>, rs: seq<Result<Filament>>)
    requires |blocks| == |rs| && Collect(rs).Ok?
    requires forall k :: 0 <= k < |rs| ==> blocks[k].Ok? || rs[k].Err?
    requires forall k :: 0 <= k < |rs| && blocks[k].Ok? ==>
               rs[k].Ok? && Within(rs[k].value.ids, |rows|) && blocks[k].value == Columns(rows, rs[k].value.ids)
    ensures Collect(blocks).Ok? && AllWithin(Collect(rs).value, |rows|)
    ensures Collect(blocks).value == Blocks(rows, Collect(rs).value)
  {
    var fs := Collect(rs).value;
    var vals := Collect(blocks).value;
    Pointwise(vals, Blocks(rows, fs));
  }

  /** The stored block of tube id tubes[k] and the filament grouping builds
      for it fail alike or agree. */
  lemma TubeBlockAgrees(sc: Scan, m: string, idx: seq<nat>, toks: seq<string>, positions: Dict<seq<nat>>, tubes: seq<string>,
                        num: string -> Option<real>, k: nat)
    requires Within(idx, |sc.rows|) && |toks| == |idx| && k < |tubes|
    requires Bucketed(positions, toks) && forall t :: t in tubes ==> t in toks
    ensures var b := TubeBlocks(Pick(sc.rows, idx), positions, tubes, sc.headers, num)[k];
            var f := TubeFilament(sc, m, idx, toks, tubes[k], num);
            && (b.Ok? <==> f.Ok?) && (b.Err? ==> b.error == f.error)
            && (b.Ok? ==> b.value == Columns(sc.rows, f.value.ids))
  {
    assert tubes[k] in tubes;
    TubeBlocksAt(Pick(sc.rows, idx), positions, tubes, sc.headers, num, k);
    SortedBlockOf(sc, m, idx, toks, tubes[k], num);
  }

  /** full_data_dict after some rows: each micrograph name seen maps to its
      rows in file order. */
  ghost predicate ByMicrograph(full: Dict<seq<seq<string>>>, rows: seq<seq<string>>, mics: seq<string>)
    requires |mics| == |rows|
  {
    && Dicts.Valid(full)
    && (forall m :: m in full.vals <==> m in mics)
    && (forall m :: m in full.vals ==> full.vals[m] == Pick(rows, Positions(mics, m)))
  }

  /** full_data_dict as the line loop builds it: each data row is appended
      to its micrograph's list, a new name going to the end of the key order. */
  ghost function MicrographRows(rows: seq<seq<string>>, mics: seq<string>): (d: Dict<seq<seq<string>>>)
    requires |mics| == |rows|
    decreases |rows|
  {
    if rows == [] then Dicts.Empty()
    else
      var n := |rows| - 1;
      var d := MicrographRows(rows[..n], mics[..n]);
      Dicts.Put(d, mics[n], (if mics[n] in d.vals then d.vals[mics[n]] else []) + [rows[n]])
  }

  /** The dict the line loop builds maps each micrograph name seen to its
      rows in file order, and no other name. */
  lemma {:induction false} MicrographRowsBy(rows: seq<seq<string>>, mics: seq<string>)
    requires |mics| == |rows|
    ensures ByMicrograph(MicrographRows(rows, mics), rows, mics)
    decreases |rows|
  {
    if rows != [] {
      var n := |rows| - 1;
      var rs, ms := rows[..n], mics[..n];
      assert rs + [rows[n]] == rows && ms + [mics[n]] == mics;
      MicrographRowsBy(rs, ms);
      var d := MicrographRows(rs, ms);
      assert MicrographRows(rows, mics) == Dicts.Put(d, mics[n], (if mics[n] in d.vals then d.vals[mics[n]] else []) + [rows[n]]);
      ByMicrographStep(d, rs, ms, rows[n], mics[n]);
    }
  }

  /** One more row extends the dict by that row. */
  lemma MicrographRowsSnoc(rows: seq<seq<string>>, mics: seq<string>, fields: seq<string>, mic: string)
    requires |mics| == |rows|
    ensures var d := MicrographRows(rows, mics);
            MicrographRows(rows + [fields], mics + [mic]) == Dicts.Put(d, mic, (if mic in d.vals then d.vals[mic] else []) + [fields])
  {
    assert (rows + [fields])[..|rows|] == rows && (mics + [mic])[..|mics|] == mics;
  }

  lemma ByMicrographStep(full: Dict<seq<seq<string>>>, rows: seq<seq<string>>, mics: seq<string>, fields: seq<string>, mic: string)
    requires |mics| == |rows| && ByMicrograph(full, rows, mics)
    ensures ByMicrograph(Dicts.Put(full, mic, (if mic in full.vals then full.vals[mic] else []) + [fields]),
                         rows + [fields], mics + [mic])
  {
    ByMicrographPut(full, Dicts.Put(full, mic, (if mic in full.vals then full.vals[mic] else []) + [fields]), rows, mics, fields, mic);
  }

  lemma ByMicrographPut(full: Dict<seq<seq<string>>>, full': Dict<seq<seq<string>>>, rows: seq<seq<string>>, mics: seq<string>,
                        fields: seq<string>, mic: string)
    requires |mics| == |rows| && ByMicrograph(full, rows, mics) && Dicts.Valid(full')
    requires full'.vals == full.vals[mic := (if mic in full.vals then full.vals[mic] else []) + [fields]]
    ensures ByMicrograph(full', rows + [fields], mics + [mic])
  {
    forall m | m in full'.vals ensures full'.vals[m] == Pick(rows + [fields], Positions(mics + [mic], m)) {
      ByMicrographEntry(full, rows, mics, fields, mic, m);
    }
    forall m ensures m in full'.vals <==> m in mics + [mic] {
      assert m in mics + [mic] <==> m in mics || m == mic;
    }
  }

  /** One entry of full_data_dict after appending a row of micrograph mic. */
  lemma ByMicrographEntry(full: Dict<seq<seq<string>>>, rows: seq<seq<string>>, mics: seq<string>, fields: seq<string>,
                          mic: string, m: string)
    requires |mics| == |rows| && ByMicrograph(full, rows, mics)
    requires m in full.vals || m == mic
    ensures Within(Positions(mics + [mic], m), |rows + [fields]|)
    ensures (if m == mic then (if mic in full.vals then full.vals[mic] else []) + [fields] else full.vals[m]) ==
            Pick(rows + [fields], Positions(mics + [mic], m))
  {
    PickPositionsSnoc(rows, mics, fields, mic, m);
    if m == mic && mic !in full.vals {
      NoPositions(mics, m);
    }
  }

  lemma NoPositions(xs: seq<string>, m: string)
    requires m !in xs
    ensures Positions(xs, m) == []
  {
  }

  /** Filing one more row under micrograph mic adds it to the end of mic's rows. */
  lemma PickPositionsSnoc(rows: seq<seq<string>>, mics: seq<string>, fields: seq<string>, mic: string, m: string)
    requires |rows| == |mics|
    ensures Within(Positions(mics + [mic], m), |rows + [fields]|)
    ensures Pick(rows + [fields], Positions(mics + [mic], m)) ==
            Pick(rows, Positions(mics, m)) + (if mic == m then [fields] else [])
  {
    PositionsSnoc(mics, mic, m);
  }

  /** Picking twice is picking once through the composed positions. */
  lemma PickPick<T>(s: seq<T>, idx: seq<nat>, sel: seq<nat>)
    requires Within(idx, |s|) && Within(sel, |idx|)
    ensures Within(Pick(idx, sel), |s|)
    ensures Pick(Pick(s, idx), sel) == Pick(s, Pick(idx, sel))
  {
  }

  /** Tokens read row by row are what TubeTokens reads. */
  lemma TubeTokensOf(data: seq<seq<string>>, col: int, toks: seq<string>)
    requires |toks| == |data| && forall i :: 0 <= i < |data| ==> PyGet(data[i], col) == Ok(toks[i])
    ensures TubeTokens(data, col) == Ok(toks)
  {
    var r := TubeTokens(data, col);
    assert r.Ok?;
    assert forall i :: 0 <= i < |data| ==> r.value[i] == toks[i];
    Pointwise(r.value, toks);
  }

  lemma TubeFilamentUnfold(sc: Scan, m: string, idx: seq<nat>, toks: seq<string>, t: string, num: string -> Option<real>)
    requires Within(idx, |sc.rows|) && |toks| == |idx|
    ensures Within(Pick(idx, Positions(toks, t)), |sc.rows|)
    ensures TubeFilament(sc, m, idx, toks, t, num) ==
            match TrackKeys(Pick(sc.rows, Pick(idx, Positions(toks, t))), sc.headers, num)
            case Err(e) => Err(e)
            case Ok(keys) => Ok(Filament(m, t, Pick(Pick(idx, Positions(toks, t)), StableOrder(keys, |keys|))))
  {
  }

  /** One round of the tube loop as a value: the rows at positions plist of
      a micrograph's rows, sorted stably by track length, zipped into
      columns. */
  function SortedBlock(micData: seq<seq<string>>, plist: seq<nat>, hd: Dict<int>, num: string -> Option<real>): (r: Result<seq<seq<Value>>>)
    requires Within(plist, |micData|)
    ensures r.Ok? ==> Rectangular(r.value, |plist|)
  {
    var group := Pick(micData, plist);
    var keys :- TrackKeys(group, hd, num);
    var sorted := Pick(group, StableOrder(keys, |keys|));
    ZipRectangular(CellRows(sorted));
    Ok(Zip(CellRows(sorted)))
  }

  /** The block the tube loop stores for tube id t of a micrograph is the
      column view of the filament that grouping builds for it. */
  lemma SortedBlockOf(sc: Scan, m: string, idx: seq<nat>, toks: seq<string>, t: string, num: string -> Option<real>)
    requires Within(idx, |sc.rows|) && |toks| == |idx|
    ensures Within(Positions(toks, t), |Pick(sc.rows, idx)|)
    ensures SortedBlock(Pick(sc.rows, idx), Positions(toks, t), sc.headers, num).Ok? <==> TubeFilament(sc, m, idx, toks, t, num).Ok?
    ensures SortedBlock(Pick(sc.rows, idx), Positions(toks, t), sc.headers, num).Err? ==>
              SortedBlock(Pick(sc.rows, idx), Positions(toks, t), sc.headers, num).error == TubeFilament(sc, m, idx, toks, t, num).error
    ensures SortedBlock(Pick(sc.rows, idx), Positions(toks, t), sc.headers, num).Ok? ==>
              SortedBlock(Pick(sc.rows, idx), Positions(toks, t), sc.headers, num).value == Columns(sc.rows, TubeFilament(sc, m, idx, toks, t, num).value.ids)
  {
    var plist := Positions(toks, t);
    var ids := Pick(idx, plist);
    TubeFilamentUnfold(sc, m, idx, toks, t, num);
    PickPick(sc.rows, idx, plist);
    var keys := TrackKeys(Pick(sc.rows, ids), sc.headers, num);
    if keys.Ok? {
      var order := StableOrder(keys.value, |keys.value|);
      PickPick(sc.rows, ids, order);
    }
  }

  /** A micrograph whose filaments cannot be built stops the micrograph loop. */
  lemma MicrographStop(sc: Scan, mics: seq<string>, tubeCol: int, num: string -> Option<real>, k: nat)
    requires WellFormed(sc) && k < |mics| && AllFilaments(sc, mics[..k], tubeCol, num).Ok?
    requires MicFilaments(sc, mics[k], tubeCol, num).Err?
    ensures AllFilaments(sc, mics, tubeCol, num) == Err(MicFilaments(sc, mics[k], tubeCol, num).error)
  {
    AllFilamentsStep(sc, mics, tubeCol, num, k);
    AllFilamentsStop(sc, mics, tubeCol, num, k + 1);
  }

  /** Counting every distinct name of xs counts every entry. */
  lemma CountSumSorted(xs: seq<string>)
    ensures CountSum(SortedKeys(xs), xs) == |xs|
  {
    StrictlySortedDistinct(SortedKeys(xs));
    assert forall i :: 0 <= i < |xs| ==> xs[i] in xs;
    CountSumAll(SortedKeys(xs), xs);
  }

  /** numberOfFilaments, filaments and numberOfParticles as the micrograph
      loop leaves them. */
  datatype Filing = Filing(fm: map<int, seq<seq<Value>>>, count: int, particles: int)

  /** The fields the micrograph loop has set once the first k micrographs
      of mics are filed: the blocks of their filaments stored under 0, 1, ...,
      the number of filaments and the number of particles; or the error that
      stops the loop. */
  ghost function FiledAfter(sc: Scan, mics: seq<string>, k: nat, tubeCol: int, num: string -> Option<real>): (r: Result<Filing>)
    requires WellFormed(sc) && k <= |mics|
    ensures r.Ok? <==> AllFilaments(sc, mics[..k], tubeCol, num).Ok?
    ensures r.Err? ==> r.error == AllFilaments(sc, mics[..k], tubeCol, num).error
  {
    var fs :- AllFilaments(sc, mics[..k], tubeCol, num);
    Ok(FilingOf(sc.rows, fs, CountSum(mics[..k], sc.micrographs)))
  }

  lemma FiledAfterIs(sc: Scan, mics: seq<string>, k: nat, tubeCol: int, num: string -> Option<real>)
    requires WellFormed(sc) && k <= |mics| && AllFilaments(sc, mics[..k], tubeCol, num).Ok?
    ensures FiledAfter(sc, mics, k, tubeCol, num) ==
            Ok(FilingOf(sc.rows, AllFilaments(sc, mics[..k], tubeCol, num).value, CountSum(mics[..k], sc.micrographs)))
  {
  }

  /** The fields once the filaments fs are filed and np particles counted. */
  function FilingOf(rows: seq<seq<string>>, fs: seq<Filament>, np: int): Filing
    requires AllWithin(fs, |rows|)
  {
    Filing(Extend(map[], 0, Blocks(rows, fs)), |fs|, np)
  }

  /** What the loop has set once every micrograph of mics is filed: filament
      number i holds the columns of filament i, numberOfFilaments counts the
      filaments, numberOfParticles the rows of those micrographs. */
  lemma FiledAll(sc: Scan, mics: seq<string>, tubeCol: int, num: string -> Option<real>, f: Filing)
    requires WellFormed(sc) && FiledAfter(sc, mics, |mics|, tubeCol, num) == Ok(f)
    ensures AllFilaments(sc, mics, tubeCol, num).Ok?
    ensures var fs := AllFilaments(sc, mics, tubeCol, num).value;
            && AllWithin(fs, |sc.rows|) && Stores(f.fm, sc.rows, fs)
            && f.count == |fs| && f.particles == CountSum(mics, sc.micrographs)
  {
    assert mics[..|mics|] == mics;
    var fs := AllFilaments(sc, mics, tubeCol, num).value;
    FiledAfterIs(sc, mics, |mics|, tubeCol, num);
    StoresExtend(map[], sc.rows, [], fs);
    assert [] + fs == fs;
  }

  /** Filing micrograph mics[k] moves the loop on by one micrograph: its
      blocks are stored after the earlier ones. */
  lemma FiledAfterStep(sc: Scan, mics: seq<string>, k: nat, tubeCol: int, num: string -> Option<real>)
    requires WellFormed(sc) && k < |mics| && FiledAfter(sc, mics, k, tubeCol, num).Ok?
    requires MicFilaments(sc, mics[k], tubeCol, num).Ok?
    ensures var fs := MicFilaments(sc, mics[k], tubeCol, num).value;
            FiledAfter(sc, mics, k + 1, tubeCol, num) ==
              Ok(Advance(FiledAfter(sc, mics, k, tubeCol, num).value, Blocks(sc.rows, fs), |fs|,
                         |Positions(sc.micrographs, mics[k])|))
  {
    var done := AllFilaments(sc, mics[..k], tubeCol, num).value;
    var fs := MicFilaments(sc, mics[k], tubeCol, num).value;
    var np := CountSum(mics[..k], sc.micrographs);
    var add := |Positions(sc.micrographs, mics[k])|;
    AllFilamentsStep(sc, mics, tubeCol, num, k);
    CountSumStep(mics, sc.micrographs, k);
    FiledAfterIs(sc, mics, k, tubeCol, num);
    FiledAfterIs(sc, mics, k + 1, tubeCol, num);
    assert AllFilaments(sc, mics[..k + 1], tubeCol, num).value == done + fs;
    assert FiledAfter(sc, mics, k + 1, tubeCol, num) ==
           Ok(FilingOf(sc.rows, AllFilaments(sc, mics[..k + 1], tubeCol, num).value, CountSum(mics[..k + 1], sc.micrographs)));
    assert CountSum(mics[..k + 1], sc.micrographs) == np + add;
    assert FilingOf(sc.rows, AllFilaments(sc, mics[..k + 1], tubeCol, num).value, CountSum(mics[..k + 1], sc.micrographs)) ==
           FilingOf(sc.rows, done + fs, np + add);
    assert FiledAfter(sc, mics, k + 1, tubeCol, num) == Ok(FilingOf(sc.rows, done + fs, np + add));
    assert FiledAfter(sc, mics, k, tubeCol, num).value == FilingOf(sc.rows, done, np);
    FilingSnoc(sc.rows, done, fs, np, add);
    assert FilingOf(sc.rows, done + fs, np + add) == Advance(FilingOf(sc.rows, done, np), Blocks(sc.rows, fs), |fs|, add);
  }

  /** A micrograph whose filaments cannot be built stops the loop with its
      error. */
  lemma FiledAfterStop(sc: Scan, mics: seq<string>, k: nat, tubeCol: int, num: string -> Option<real>)
    requires WellFormed(sc) && k < |mics| && FiledAfter(sc, mics, k, tubeCol, num).Ok?
    requires MicFilaments(sc, mics[k], tubeCol, num).Err?
    ensures AllFilaments(sc, mics, tubeCol, num) == Err(MicFilaments(sc, mics[k], tubeCol, num).error)
  {
    MicrographStop(sc, mics, tubeCol, num, k);
  }

  /** One more micrograph filed: its blocks stored from the current count
      on, n more filaments and add more particles counted. */
  function Advance(f: Filing, blocks: seq<seq<seq<Value>>>, n: int, add: int): (r: Filing)
    ensures r.count - f.count == n && r.particles - f.particles == add
    ensures forall i :: i in f.fm && !(f.count <= i < f.count + |blocks|) ==> i in r.fm && r.fm[i] == f.fm[i]
  {
    ExtendAt(f.fm, f.count, blocks);
    Filing(Extend(f.fm, f.count, blocks), f.count + n, f.particles + add)
  }

  /** The loop state after done + fs is that after done moved on by fs. */
  lemma FilingSnoc(rows: seq<seq<string>>, done: seq<Filament>, fs: seq<Filament>, np: int, add: int)
    requires AllWithin(done, |rows|) && AllWithin(fs, |rows|)
    ensures AllWithin(done + fs, |rows|)
    ensures FilingOf(rows, done + fs, np + add) == Advance(FilingOf(rows, done, np), Blocks(rows, fs), |fs|, add)
  {
    StoredSnoc(rows, done, fs);
  }

  /** The blocks of done + fs, stored from 0, are those of done stored from
      0 and then those of fs stored from |done|. */
  lemma StoredSnoc(rows: seq<seq<string>>, done: seq<Filament>, fs: seq<Filament>)
    requires AllWithin(done, |rows|) && AllWithin(fs, |rows|)
    ensures AllWithin(done + fs, |rows|)
    ensures Extend(map[], 0, Blocks(rows, done + fs)) == Extend(Extend(map[], 0, Blocks(rows, done)), |done|, Blocks(rows, fs))
  {
    var empty: map<int, seq<seq<Value>>> := map[];
    BlocksAppend(rows, done, fs);
    ExtendAppend(empty, 0, Blocks(rows, done), Blocks(rows, fs), |done|);
  }

  /** Counting one more key. */
  lemma CountSumStep(keys: seq<string>, xs: seq<string>, k: nat)
    requires k < |keys|
    ensures CountSum(keys[..k + 1], xs) == CountSum(keys[..k], xs) + |Positions(xs, keys[k])|
  {
    assert keys[..k + 1][..k] == keys[..k];
  }

  /** filament_positions after some rows of a micrograph: each tube-id token
      seen maps to the ascending row numbers (within the micrograph) that
      carry it. */
  ghost predicate Bucketed(positions: Dict<seq<nat>>, toks: seq<string>)
  {
    && Dicts.Valid(positions)
    && (forall t :: t in positions.vals <==> t in toks)
    && (forall t :: t in positions.vals ==> positions.vals[t] == Positions(toks, t))
  }

  lemma BucketedStep(positions: Dict<seq<nat>>, toks: seq<string>, t: string)
    requires Bucketed(positions, toks)
    ensures Bucketed(Dicts.Put(positions, t, (if t in positions.vals then positions.vals[t] else []) + [|toks|]), toks + [t])
  {
    BucketedPut(positions, Dicts.Put(positions, t, (if t in positions.vals then positions.vals[t] else []) + [|toks|]), toks, t);
  }

  lemma BucketedPut(positions: Dict<seq<nat>>, positions': Dict<seq<nat>>, toks: seq<string>, t: string)
    requires Bucketed(positions, toks) && Dicts.Valid(positions')
    requires positions'.vals == positions.vals[t := (if t in positions.vals then positions.vals[t] else []) + [|toks|]]
    ensures Bucketed(positions', toks + [t])
  {
    forall u | u in positions'.vals ensures positions'.vals[u] == Positions(toks + [t], u) {
      PositionsSnoc(toks, t, u);
      if u == t && t !in positions.vals {
        NoPositions(toks, u);
      }
    }
    forall u ensures u in positions'.vals <==> u in toks + [t] {
      assert u in toks + [t] <==> u in toks || u == t;
    }
  }

  /** [str(i) for i in fm[n][hd[h]]]: the filament is looked up first, then
      the column number, then the column. */
  function StringColumn(fm: map<int, seq<seq<Value>>>, hd: Dict<int>, n: int, h: string): (r: Result<seq<string>>)
    ensures r.Ok? <==> n in fm && h in hd.vals && -|fm[n]| <= hd.vals[h] < |fm[n]|
    ensures r.Err? ==> r.error == if n !in fm then FilamentKeyError(n) else if h !in hd.vals then KeyError(h) else IndexError
    ensures r.Ok? ==> var c := PyIndex(|fm[n]|, hd.vals[h]).value;
                      |r.value| == |fm[n][c]| && forall j :: 0 <= j < |r.value| ==> r.value[j] == Render(fm[n][c][j])
  {
    if n !in fm then Err(FilamentKeyError(n))
    else
      var c :- Dicts.Get(hd, h);
      var column :- PyGet(fm[n], c);
      Ok(RenderAll(column))
  }

  /** The string column of filament n for each name in turn; the first name
      whose column cannot be read decides the error. */
  function StringColumns(fm: map<int, seq<seq<Value>>>, hd: Dict<int>, n: int, names: seq<string>): (r: Result<seq<seq<string>>>)
    ensures r.Ok? <==> forall h :: 0 <= h < |names| ==> StringColumn(fm, hd, n, names[h]).Ok?
    ensures r.Ok? ==> |r.value| == |names| && forall h :: 0 <= h < |names| ==> StringColumn(fm, hd, n, names[h]) == Ok(r.value[h])
    decreases |names|
  {
    if names == [] then Ok([])
    else
      var init := names[..|names| - 1];
      assert forall h :: 0 <= h < |init| ==> init[h] == names[h];
      var prev :- StringColumns(fm, hd, n, init);
      var col :- StringColumn(fm, hd, n, names[|names| - 1]);
      Ok(prev + [col])
  }

  /** The data lines of filament n: its string columns in the order of names,
      transposed by zip(*), which stops at the shortest column. */
  function FilamentLines(fm: map<int, seq<seq<Value>>>, hd: Dict<int>, n: int, names: seq<string>): (r: Result<seq<string>>)
  {
    var cols :- StringColumns(fm, hd, n, names);
    Ok(RowLines(Zip(cols)))
  }

  /** The data lines of filaments 0 .. count - 1, one filament after another;
      the first filament that cannot be written decides the error. */
  function DataLines(fm: map<int, seq<seq<Value>>>, hd: Dict<int>, names: seq<string>, count: nat): (r: Result<seq<string>>)
    ensures r.Ok? <==> forall k :: 0 <= k < count ==> FilamentLines(fm, hd, k, names).Ok?
  {
    var rs := FilamentBlocks(fm, hd, names, count);
    assert forall k :: 0 <= k < count ==> rs[k] == FilamentLines(fm, hd, k, names);
    Gather(rs)
  }

  /** The outcome of writing each of filaments 0 .. count - 1. */
  function FilamentBlocks(fm: map<int, seq<seq<Value>>>, hd: Dict<int>, names: seq<string>, count: nat): (r: seq<Result<seq<string>>>)
    ensures |r| == count
  {
    seq(count, k => FilamentLines(fm, hd, k, names))
  }

  /** The lines written for filament n, gathered column by column and then
      row by row. */
  method WriteFilament(fm: map<int, seq<seq<Value>>>, hd: Dict<int>, n: int, names: seq<string>) returns (r: Result<seq<string>>)
    ensures r == FilamentLines(fm, hd, n, names)
  {
    var cols := CollectColumns(fm, hd, n, names);
    if cols.Err? {
      return Err(cols.error);
    }
    var lines := WriteRows(Zip(cols.value));
    r := Ok(lines);
  }

  /** Fetches the string form of each named column in turn, stopping at the
      first that cannot be fetched. */
  method CollectColumns(fm: map<int, seq<seq<Value>>>, hd: Dict<int>, n: int, names: seq<string>) returns (r: Result<seq<seq<string>>>)
    ensures r == StringColumns(fm, hd, n, names)
  {
    var cols: seq<seq<string>> := [];
    for h := 0 to |names|
      invariant StringColumns(fm, hd, n, names[..h]) == Ok(cols)
    {
      var col := StringColumn(fm, hd, n, names[h]);
      StringColumnsSnoc(fm, hd, n, names, h);
      if col.Err? {
        StringColumnsStop(fm, hd, n, names, h + 1);
        return Err(col.error);
      }
      cols := cols + [col.value];
    }
    assert names[..|names|] == names;
    r := Ok(cols);
  }

  /** Joins each row of cells into one line of the file. */
  method WriteRows(rows: seq<seq<string>>) returns (lines: seq<string>)
    ensures lines == RowLines(rows)
  {
    lines := [];
    for i := 0 to |rows|
      invariant |lines| == i && forall j :: 0 <= j < i ==> lines[j] == JoinCells(rows[j])
    {
      lines := lines + [JoinCells(rows[i])];
    }
    Pointwise(lines, RowLines(rows));
  }

  /** One more name extends the fetched columns by its column, or fails with its error. */
  lemma StringColumnsSnoc(fm: map<int, seq<seq<Value>>>, hd: Dict<int>, n: int, names: seq<string>, h: nat)
    requires h < |names| && StringColumns(fm, hd, n, names[..h]).Ok?
    ensures StringColumn(fm, hd, n, names[h]).Ok? ==>
      StringColumns(fm, hd, n, names[..h + 1]) == Ok(StringColumns(fm, hd, n, names[..h]).value + [StringColumn(fm, hd, n, names[h]).value])
    ensures StringColumn(fm, hd, n, names[h]).Err? ==>
      StringColumns(fm, hd, n, names[..h + 1]) == Err(StringColumn(fm, hd, n, names[h]).error)
  {
    assert names[..h + 1][..h] == names[..h];
  }

  /** A failing prefix of the names fails the whole list with its error. */
  lemma {:induction false} StringColumnsStop(fm: map<int, seq<seq<Value>>>, hd: Dict<int>, n: int, names: seq<string>, h: nat)
    requires h <= |names| && StringColumns(fm, hd, n, names[..h]).Err?
    ensures StringColumns(fm, hd, n, names) == StringColumns(fm, hd, n, names[..h])
    decreases |names| - h
  {
    if h < |names| {
      assert names[..h + 1][..h] == names[..h];
      StringColumnsStop(fm, hd, n, names, h + 1);
    } else {
      assert names[..h] == names;
    }
  }


  /** What writeFilamentsToStarFile writes: the header names of the original
      headers in column-number order (a NameError when there are none), the
      preamble, one declaration per name numbered from 1, and then the data
      lines of filaments 0 .. count - 1, whose columns are looked up in the
      headers as redirected to the edited columns. */
  function WriteSpec(filename: string, hd: Dict<int>, nh: Dict<int>, opticsInfo: seq<string>, comments: seq<string>,
                     fm: map<int, seq<seq<Value>>>, count: nat, saveUpdated: bool): (r: Result<Written>)
    requires Dicts.Valid(hd) && Dicts.Valid(nh)
  {
    var names :- OrderedHeaders(hd);
    var pre :- Preamble(opticsInfo, comments, "data_particles");
    var data :- DataLines(fm, SavedHeaders(hd, nh, saveUpdated), names, count);
    Ok(Written(SaveName(filename, nh, saveUpdated), pre + DeclLines(names, 1) + data))
  }

  /** The writer fails with a NameError when there are no headers, and
      with an IndexError when there are headers but no comment line. */
  lemma WriteFails(filename: string, hd: Dict<int>, nh: Dict<int>, opticsInfo: seq<string>, comments: seq<string>,
                   fm: map<int, seq<seq<Value>>>, count: nat, saveUpdated: bool)
    requires Dicts.Valid(hd) && Dicts.Valid(nh)
    ensures hd.keys == [] ==> WriteSpec(filename, hd, nh, opticsInfo, comments, fm, count, saveUpdated) == Err(NameError)
    ensures hd.keys != [] && comments == [] ==>
              WriteSpec(filename, hd, nh, opticsInfo, comments, fm, count, saveUpdated) == Err(IndexError)
  {
  }

  /** Given headers and a comment line, the writer succeeds exactly when
      the data of every filament 0 .. count - 1 can be read. */
  lemma WriteSucceeds(filename: string, hd: Dict<int>, nh: Dict<int>, opticsInfo: seq<string>, comments: seq<string>,
                      fm: map<int, seq<seq<Value>>>, count: nat, saveUpdated: bool)
    requires Dicts.Valid(hd) && Dicts.Valid(nh) && hd.keys != [] && comments != []
    ensures WriteSpec(filename, hd, nh, opticsInfo, comments, fm, count, saveUpdated).Ok? <==>
            forall k :: 0 <= k < count ==> FilamentLines(fm, SavedHeaders(hd, nh, saveUpdated), k, OrderedHeaders(hd).value).Ok?
  {
    var data := DataLines(fm, SavedHeaders(hd, nh, saveUpdated), OrderedHeaders(hd).value, count);
    assert WriteSpec(filename, hd, nh, opticsInfo, comments, fm, count, saveUpdated).Ok? <==> data.Ok?;
  }

  /** Saving x.star writes x_updated.star, or x_updated followed by the edited
      column names when the edited columns are saved. */
  lemma WrittenName(filename: string, hd: Dict<int>, nh: Dict<int>, opticsInfo: seq<string>, comments: seq<string>,
                    fm: map<int, seq<seq<Value>>>, count: nat, saveUpdated: bool, base: string)
    requires Dicts.Valid(hd) && Dicts.Valid(nh) && filename == base + ".star"
    requires WriteSpec(filename, hd, nh, opticsInfo, comments, fm, count, saveUpdated).Ok?
    ensures WriteSpec(filename, hd, nh, opticsInfo, comments, fm, count, saveUpdated).value.name ==
            base + "_updated" + (if saveUpdated && nh.keys != [] then Joined(nh.keys, |nh.keys|) else "") + ".star"
  {
    StemOfStarFile(base);
  }

  /** The header the writer puts before the data declares every original
      header exactly once, in column-number order, numbered from 1; read back
      by the line loop it gives those names those numbers less one, the
      comment line and the optics block. The data lines follow it. */
  lemma WrittenHeader(filename: string, hd: Dict<int>, nh: Dict<int>, opticsInfo: seq<string>, comments: seq<string>,
                      fm: map<int, seq<seq<Value>>>, count: nat, saveUpdated: bool, v: Variant, w: Written, names: seq<string>)
    requires Dicts.Valid(hd) && Dicts.Valid(nh)
    requires WriteSpec(filename, hd, nh, opticsInfo, comments, fm, count, saveUpdated) == Ok(w)
    requires OrderedHeaders(hd) == Ok(names)
    requires CommentLine(comments[0]) && (opticsInfo == [] || OpticsBlock(opticsInfo, v))
    requires forall k :: 0 <= k < |hd.keys| ==> NoSpace(hd.keys[k])
    ensures EachColumnOnce(hd, names) && ByColumnNumber(hd, names)
    ensures var m := |Preamble(opticsInfo, comments, "data_particles").value| + |names|;
            && m <= |w.lines|
            && ScanAll(CleanLines(w.lines[..m]), v) ==
               Ok(Scan(false, if opticsInfo == [] then [comments[0]] else [comments[0], comments[0]], opticsInfo,
                       PutAll(Dicts.Empty(), names, 1), [], []))
            && DataLines(fm, SavedHeaders(hd, nh, saveUpdated), names, count) == Ok(w.lines[m..])
  {
    WrittenParts(filename, hd, nh, opticsInfo, comments, fm, count, saveUpdated, w, names);
    forall k | 0 <= k < |names| ensures NoSpace(names[k]) {
      assert names[k] in hd.vals;
    }
    ReadBackHeader(opticsInfo, comments, names, v);
  }

  /** The written lines are the header, then the data lines. */
  lemma WrittenParts(filename: string, hd: Dict<int>, nh: Dict<int>, opticsInfo: seq<string>, comments: seq<string>,
                     fm: map<int, seq<seq<Value>>>, count: nat, saveUpdated: bool, w: Written, names: seq<string>)
    requires Dicts.Valid(hd) && Dicts.Valid(nh)
    requires WriteSpec(filename, hd, nh, opticsInfo, comments, fm, count, saveUpdated) == Ok(w)
    requires OrderedHeaders(hd) == Ok(names)
    ensures var m := |Preamble(opticsInfo, comments, "data_particles").value| + |names|;
            && m <= |w.lines|
            && w.lines[..m] == Preamble(opticsInfo, comments, "data_particles").value + DeclLines(names, 1)
            && DataLines(fm, SavedHeaders(hd, nh, saveUpdated), names, count) == Ok(w.lines[m..])
  {
    var pre := Preamble(opticsInfo, comments, "data_particles").value;
    var data := DataLines(fm, SavedHeaders(hd, nh, saveUpdated), names, count).value;
    assert w.lines == pre + DeclLines(names, 1) + data;
    assert w.lines[..|pre| + |names|] == pre + DeclLines(names, 1);
    assert w.lines[|pre| + |names|..] == data;
  }

  /** Splitting data line i of filament n gives back, field by field, the
      string of particle i in each named column; there are as many lines as
      the shortest of those columns has particles. */
  lemma FilamentLinesFields(fm: map<int, seq<seq<Value>>>, hd: Dict<int>, n: int, names: seq<string>)
    requires FilamentLines(fm, hd, n, names).Ok?
    requires var cols := StringColumns(fm, hd, n, names).value;
             forall j, i :: 0 <= j < |cols| && 0 <= i < |cols[j]| ==> cols[j][i] != [] && NoSpace(cols[j][i])
    ensures var cols := StringColumns(fm, hd, n, names).value;
            var lines := FilamentLines(fm, hd, n, names).value;
            && |lines| == MinWidth(cols)
            && forall i :: 0 <= i < |lines| ==>
                 (|Split(lines[i])| == |names| && forall j :: 0 <= j < |names| ==> Split(lines[i])[j] == cols[j][i])
  {
    var cols := StringColumns(fm, hd, n, names).value;
    assert forall j, i :: 0 <= j < |cols| && 0 <= i < |cols[j]| ==> cols[j][i] != [] && NoSpace(cols[j][i]);
    ColumnLinesFields(cols);
  }

  /** Filament k's lines come straight after those of the filaments before
      it, unless it cannot be written, which decides the error. */
  lemma DataLinesSnoc(fm: map<int, seq<seq<Value>>>, hd: Dict<int>, names: seq<string>, k: nat)
    requires DataLines(fm, hd, names, k).Ok?
    ensures DataLines(fm, hd, names, k + 1) ==
            match FilamentLines(fm, hd, k, names)
            case Err(e) => Err(e)
            case Ok(lines) => Ok(DataLines(fm, hd, names, k).value + lines)
  {
    var rs := FilamentBlocks(fm, hd, names, k + 1);
    assert rs[..k] == FilamentBlocks(fm, hd, names, k);
    assert rs[..k + 1] == rs;
    GatherStep(rs, k);
  }

  /** Once filament k cannot be written the later filaments do not matter. */
  lemma DataLinesStop(fm: map<int, seq<seq<Value>>>, hd: Dict<int>, names: seq<string>, k: nat, count: nat)
    requires k <= count && DataLines(fm, hd, names, k).Err?
    ensures DataLines(fm, hd, names, count) == DataLines(fm, hd, names, k)
  {
    var rs := FilamentBlocks(fm, hd, names, count);
    assert rs[..k] == FilamentBlocks(fm, hd, names, k);
    GatherFailed(rs, k);
  }

  /** The data lines of filaments 0 .. count - 1, filament by filament. */
  method WriteData(fm: map<int, seq<seq<Value>>>, hd: Dict<int>, names: seq<string>, count: nat) returns (r: Result<seq<string>>)
    ensures r == DataLines(fm, hd, names, count)
  {
    var lines: seq<string> := [];
    for f := 0 to count
      invariant DataLines(fm, hd, names, f) == Ok(lines)
    {
      var block := WriteFilament(fm, hd, f, names);
      DataLinesSnoc(fm, hd, names, f);
      if block.Err? {
        DataLinesStop(fm, hd, names, f + 1, count);
        return Err(block.error);
      }
      lines := lines + block.value;
    }
    r := Ok(lines);
  }

  class FilamentStar {
    var filename: string
    var numberOfFilaments: nat
    var opticsInfo: seq<string>
    var headers: Dict<int>
    var filaments: map<int, seq<seq<Value>>>
    var newDataHeaders: Dict<int>
    var starComments: seq<string>
    var numberUpdatedColumns: int
    var numberOfParticles: int

    /** The fields as __init__ sets them before loading. */
    predicate Initial()
      reads this
    {
      && numberOfFilaments == 0 && opticsInfo == [] && headers == Dicts.Empty()
      && filaments == map[] && newDataHeaders == Dicts.Empty() && starComments == []
      && numberUpdatedColumns == 0 && numberOfParticles == 0
    }

    /** Both dicts keep each key once in their key order. */
    predicate Valid()
      reads this
    {
      Dicts.Valid(headers) && Dicts.Valid(newDataHeaders)
    }

    constructor Init(filename: string)
      ensures this.filename == filename && Initial() && Valid()
    {
      this.filename := filename;
      numberOfFilaments := 0;
      opticsInfo := [];
      headers := Dicts.Empty();
      filaments := map[];
      newDataHeaders := Dicts.Empty();
      starComments := [];
      numberUpdatedColumns := 0;
      numberOfParticles := 0;
    }

    /** The line loop of loadFilamentsFromStar: comment lines, the optics
        block and the column declarations go into the fields, and each data
        row is filed in full_data_dict under its micrograph name. */
    method ScanLines(lines: seq<string>) returns (err: Option<PyError>, full: Dict<seq<seq<string>>>, ghost sc: Scan)
      requires NonBlank(lines) && Initial()
      modifies this`starComments, this`opticsInfo, this`headers
      ensures err.None? <==> ScanAll(lines, FilamentReader).Ok?
      ensures err.Some? ==> err.value == ScanAll(lines, FilamentReader).error
      ensures err.None? ==> ScanAll(lines, FilamentReader) == Ok(sc) && WellFormed(sc) && full == MicrographRows(sc.rows, sc.micrographs)
      ensures err.None? ==> (starComments, opticsInfo, headers) == (sc.comments, sc.opticsInfo, sc.headers)
    {
      var optics := false;
      full := Dicts.Empty();
      sc := InitialScan();
      var i := 0;
      while i < |lines|
        invariant 0 <= i <= |lines|
        invariant ScanFrom(InitialScan(), lines[..i], FilamentReader) == Ok(sc)
        invariant WellFormed(sc) && full == MicrographRows(sc.rows, sc.micrographs)
        invariant (optics, starComments, opticsInfo, headers) == (sc.optics, sc.comments, sc.opticsInfo, sc.headers)
      {
        err, optics, full, sc := ScanNext(lines, i, lines[i], optics, full, sc);
        if err.Some? {
          return;
        }
        i := i + 1;
      }
      assert lines[..i] == lines;
      return None, full, sc;
    }

    /** One pass of the line loop: the line is classified, and the fields,
        the optics flag and the rows bucketed by micrograph change as the
        step of the scan does. */
    method ScanNext(ghost lines: seq<string>, i: nat, line: string, optics: bool, full: Dict<seq<seq<string>>>, ghost sc: Scan)
      returns (err: Option<PyError>, optics': bool, full': Dict<seq<seq<string>>>, ghost sc': Scan)
      requires NonBlank(lines) && i < |lines| && line == lines[i]
      requires ScanFrom(InitialScan(), lines[..i], FilamentReader) == Ok(sc)
      requires WellFormed(sc) && full == MicrographRows(sc.rows, sc.micrographs)
      requires (optics, starComments, opticsInfo, headers) == (sc.optics, sc.comments, sc.opticsInfo, sc.headers)
      modifies this`starComments, this`opticsInfo, this`headers
      ensures err.Some? ==> ScanAll(lines, FilamentReader) == Err(err.value)
      ensures err.None? ==> ScanFrom(InitialScan(), lines[..i + 1], FilamentReader) == Ok(sc')
      ensures err.None? ==> WellFormed(sc') && full' == MicrographRows(sc'.rows, sc'.micrographs)
      ensures err.None? ==> (optics', starComments, opticsInfo, headers) == (sc'.optics, sc'.comments, sc'.opticsInfo, sc'.headers)
    {
      optics', full', sc' := optics, full, sc;
      ScanStep(InitialScan(), lines, i, sc, FilamentReader);
      ScanStopsAt(InitialScan(), lines, i, sc, FilamentReader);
      var kind := Classify(line, optics, FilamentReader);
      if kind.Err? {
        return Some(kind.error), optics, full, sc;
      }
      ghost var next := Apply(sc, line, kind.value, FilamentReader);
      assert Step(sc, line, FilamentReader) == next;
      match kind.value {
        case Comment =>
          starComments := starComments + [line];
          assert next.value.rows == sc.rows && next.value.micrographs == sc.micrographs;
        case OpticsStart =>
          optics' := true;
          opticsInfo := opticsInfo + [line];
          assert next.value.rows == sc.rows && next.value.micrographs == sc.micrographs;
        case ParticlesStart =>
          optics' := false;
          assert next.value.rows == sc.rows && next.value.micrographs == sc.micrographs;
        case BlockReset =>
          optics' := false;
          assert next.value.rows == sc.rows && next.value.micrographs == sc.micrographs;
        case OpticsLine =>
          opticsInfo := opticsInfo + [line];
          assert next.value.rows == sc.rows && next.value.micrographs == sc.micrographs;
        case LoopMarker =>
          assert next.value == sc;
        case ColumnDecl(name, index) =>
          headers := Dicts.Put(headers, name, index);
          assert next.value.rows == sc.rows && next.value.micrographs == sc.micrographs;
        case DataRow(fields) =>
          var col := Dicts.Get(headers, "rlnMicrographName");
          if col.Err? {
            assert next == Err(col.error);
            return Some(col.error), optics, full, sc;
          }
          var mic := PyGet(fields, col.value);
          if mic.Err? {
            assert next == Err(mic.error);
            return Some(mic.error), optics, full, sc;
          }
          MicrographRowsSnoc(sc.rows, sc.micrographs, fields, mic.value);
          full' := Dicts.Put(full, mic.value, (if mic.value in full.vals then full.vals[mic.value] else []) + [fields]);
      }
      sc' := next.value;
      err := None;
    }

    /** The state a successful load leaves. */
    ghost predicate LoadedFrom(ld: Loaded)
      requires WellFormed(ld.scan)
      requires AllWithin(ld.filaments, |ld.scan.rows|)
      reads this
    {
      && starComments == ld.scan.comments
      && opticsInfo == ld.scan.opticsInfo
      && headers == ld.scan.headers
      && numberOfFilaments == |ld.filaments|
      && Stores(filaments, ld.scan.rows, ld.filaments)
      && numberOfParticles == |ld.scan.rows|
      && newDataHeaders == Dicts.Empty()
      && numberUpdatedColumns == 0
    }

    /** The first loop of the micrograph loop's body, as it changes the
        reader's fields: every row of the micrograph is counted as a particle. */
    method BucketTubes(micData: seq<seq<string>>, tubeCol: int) returns (err: Option<PyError>, positions: Dict<seq<nat>>, ghost toks: seq<string>)
      modifies this`numberOfParticles
      ensures err.None? <==> TubeTokens(micData, tubeCol).Ok?
      ensures err.Some? ==> err.value == IndexError
      ensures err.None? ==> TubeTokens(micData, tubeCol) == Ok(toks) && Bucketed(positions, toks)
      ensures err.None? ==> numberOfParticles == old(numberOfParticles) + |micData|
    {
      err, positions, toks := BucketRows(micData, tubeCol);
      if err.None? {
        numberOfParticles := numberOfParticles + |micData|;
      }
    }

    /** The body of the micrograph loop: the rows of micrograph m become its
        filaments, numbered on from the filaments already stored. */
    method FileMicrograph(ghost sc: Scan, ghost m: string, micData: seq<seq<string>>, tubeCol: int,
                          num: string -> Option<real>) returns (err: Option<PyError>)
      requires WellFormed(sc) && micData == Pick(sc.rows, Positions(sc.micrographs, m)) && headers == sc.headers
      modifies this`filaments, this`numberOfFilaments, this`numberOfParticles
      ensures err.None? <==> MicFilaments(sc, m, tubeCol, num).Ok?
      ensures err.Some? ==> err.value == MicFilaments(sc, m, tubeCol, num).error
      ensures err.None? ==> numberOfFilaments == old(numberOfFilaments) + |MicFilaments(sc, m, tubeCol, num).value|
      ensures err.None? ==> filaments == Extend(old(filaments), old(numberOfFilaments), Blocks(sc.rows, MicFilaments(sc, m, tubeCol, num).value))
      ensures err.None? ==> numberOfParticles == old(numberOfParticles) + |micData|
    {
      ghost var idx := Positions(sc.micrographs, m);
      var positions: Dict<seq<nat>>;
      ghost var toks: seq<string>;
      err, positions, toks := BucketTubes(micData, tubeCol);
      if err.Some? {
        return;
      }
      var tubes := SortedKeys(positions.keys);
      StrictlySortedUnique(tubes, SortedKeys(toks));
      err := FileTubes(sc, m, idx, micData, toks, positions, tubes, num);
    }

    /** The tube loop of one micrograph, as it changes the reader's fields. */
    method FileTubes(ghost sc: Scan, ghost m: string, ghost idx: seq<nat>, micData: seq<seq<string>>, ghost toks: seq<string>,
                     positions: Dict<seq<nat>>, tubes: seq<string>, num: string -> Option<real>) returns (err: Option<PyError>)
      requires Within(idx, |sc.rows|) && |toks| == |idx| && micData == Pick(sc.rows, idx) && headers == sc.headers
      requires Bucketed(positions, toks) && forall t :: t in tubes ==> t in toks
      modifies this`filaments, this`numberOfFilaments
      ensures err.None? <==> TubeFilaments(sc, m, idx, toks, tubes, num).Ok?
      ensures err.Some? ==> err.value == TubeFilaments(sc, m, idx, toks, tubes, num).error
      ensures err.None? ==> numberOfFilaments == old(numberOfFilaments) + |TubeFilaments(sc, m, idx, toks, tubes, num).value|
      ensures err.None? ==> AllWithin(TubeFilaments(sc, m, idx, toks, tubes, num).value, |sc.rows|) &&
                            filaments == Extend(old(filaments), old(numberOfFilaments), Blocks(sc.rows, TubeFilaments(sc, m, idx, toks, tubes, num).value))
    {
      TubeBlocksMatch(sc, m, idx, toks, positions, tubes, num);
      var stored, count;
      err, stored, count := StoreTubes(micData, positions, tubes, num, headers, filaments, numberOfFilaments);
      if err.None? {
        filaments := stored;
        numberOfFilaments := count;
      }
    }

    /** loadFilamentsFromStar on the file's raw lines: the line loop, then
        the micrograph loop. */
    method LoadFilamentsFromStar(raw: seq<string>, num: string -> Option<real>) returns (err: Option<PyError>)
      requires Initial()
      modifies this`starComments, this`opticsInfo, this`headers, this`filaments, this`numberOfFilaments, this`numberOfParticles
      ensures err.None? <==> LoadSpec(raw, num).Ok?
      ensures err.Some? ==> err.value == LoadSpec(raw, num).error
      ensures err.None? ==> LoadedFrom(LoadSpec(raw, num).value) && Valid()
    {
      var full: Dict<seq<seq<string>>>;
      ghost var sc: Scan;
      err, full, sc := ScanLines(CleanLines(raw));
      if err.Some? {
        return;
      }
      err := FileScanned(raw, sc, full, num);
    }

    /** The rest of the constructor once the lines are scanned: the tube-ID
        column is looked up, then the micrograph loop runs. */
    method FileScanned(ghost raw: seq<string>, ghost sc: Scan, full: Dict<seq<seq<string>>>, num: string -> Option<real>)
      returns (err: Option<PyError>)
      requires ScanAll(CleanLines(raw), FilamentReader) == Ok(sc) && WellFormed(sc)
      requires full == MicrographRows(sc.rows, sc.micrographs)
      requires (starComments, opticsInfo, headers) == (sc.comments, sc.opticsInfo, sc.headers)
      requires filaments == map[] && numberOfFilaments == 0 && numberOfParticles == 0
      requires newDataHeaders == Dicts.Empty() && numberUpdatedColumns == 0
      modifies this`filaments, this`numberOfFilaments, this`numberOfParticles
      ensures err.None? <==> LoadSpec(raw, num).Ok?
      ensures err.Some? ==> err.value == LoadSpec(raw, num).error
      ensures err.None? ==> LoadedFrom(LoadSpec(raw, num).value)
    {
      LoadSpecOf(raw, num, sc);
      var tubeCol := Dicts.Get(headers, "rlnHelicalTubeID");
      if tubeCol.Err? {
        err := Some(tubeCol.error);
        return;
      }
      MicrographRowsBy(sc.rows, sc.micrographs);
      err := FileMicrographs(sc, full, tubeCol.value, num);
    }

    /** The micrograph loop: the micrographs in ascending order of name, each
        filed by FileMicrograph. */
    method FileMicrographs(ghost sc: Scan, full: Dict<seq<seq<string>>>, tubeCol: int, num: string -> Option<real>)
      returns (err: Option<PyError>)
      requires WellFormed(sc) && Dicts.Valid(full) && ByMicrograph(full, sc.rows, sc.micrographs) && headers == sc.headers
      requires filaments == map[] && numberOfFilaments == 0 && numberOfParticles == 0
      modifies this`filaments, this`numberOfFilaments, this`numberOfParticles
      ensures err.None? <==> AllFilaments(sc, SortedKeys(sc.micrographs), tubeCol, num).Ok?
      ensures err.Some? ==> err.value == AllFilaments(sc, SortedKeys(sc.micrographs), tubeCol, num).error
      ensures err.None? ==> var fs := AllFilaments(sc, SortedKeys(sc.micrographs), tubeCol, num).value;
                            Stores(filaments, sc.rows, fs) && numberOfFilaments == |fs| && numberOfParticles == |sc.rows|
    {
      var micKeys := SortedKeys(full.keys);
      StrictlySortedUnique(micKeys, SortedKeys(sc.micrographs));
      CountSumSorted(sc.micrographs);
      assert forall m :: m in micKeys ==> m in full.vals && full.vals[m] == Pick(sc.rows, Positions(sc.micrographs, m));
      err := FileEach(sc, full, micKeys, tubeCol, num);
    }

    /** The micrograph loop over the micrograph names micKeys, in that order. */
    method FileEach(ghost sc: Scan, full: Dict<seq<seq<string>>>, micKeys: seq<string>, tubeCol: int, num: string -> Option<real>)
      returns (err: Option<PyError>)
      requires WellFormed(sc) && headers == sc.headers
      requires forall m :: m in micKeys ==> m in full.vals && full.vals[m] == Pick(sc.rows, Positions(sc.micrographs, m))
      requires filaments == map[] && numberOfFilaments == 0 && numberOfParticles == 0
      modifies this`filaments, this`numberOfFilaments, this`numberOfParticles
      ensures err.None? <==> AllFilaments(sc, micKeys, tubeCol, num).Ok?
      ensures err.Some? ==> err.value == AllFilaments(sc, micKeys, tubeCol, num).error
      ensures err.None? ==> var fs := AllFilaments(sc, micKeys, tubeCol, num).value;
                            Stores(filaments, sc.rows, fs) && numberOfFilaments == |fs| && numberOfParticles == CountSum(micKeys, sc.micrographs)
    {
      assert micKeys[..0] == [];
      for k := 0 to |micKeys|
        invariant headers == sc.headers
        invariant FiledAfter(sc, micKeys, k, tubeCol, num) == Ok(Filing(filaments, numberOfFilaments, numberOfParticles))
      {
        assert micKeys[k] in micKeys;
        err := FileNext(sc, micKeys, k, full.vals[micKeys[k]], tubeCol, num);
        if err.Some? {
          return;
        }
      }
      FiledAll(sc, micKeys, tubeCol, num, Filing(filaments, numberOfFilaments, numberOfParticles));
      err := None;
    }

    /** One turn of the micrograph loop: micrograph micKeys[k] is filed, or
        its error ends the loop. */
    method FileNext(ghost sc: Scan, micKeys: seq<string>, k: nat, micData: seq<seq<string>>, tubeCol: int,
                    num: string -> Option<real>) returns (err: Option<PyError>)
      requires WellFormed(sc) && k < |micKeys| && headers == sc.headers
      requires micData == Pick(sc.rows, Positions(sc.micrographs, micKeys[k]))
      requires FiledAfter(sc, micKeys, k, tubeCol, num) == Ok(Filing(filaments, numberOfFilaments, numberOfParticles))
      modifies this`filaments, this`numberOfFilaments, this`numberOfParticles
      ensures err.Some? ==> AllFilaments(sc, micKeys, tubeCol, num) == Err(err.value)
      ensures err.None? ==> FiledAfter(sc, micKeys, k + 1, tubeCol, num) == Ok(Filing(filaments, numberOfFilaments, numberOfParticles))
    {
      ghost var before := Filing(filaments, numberOfFilaments, numberOfParticles);
      err := FileMicrograph(sc, micKeys[k], micData, tubeCol, num);
      if err.Some? {
        FiledAfterStop(sc, micKeys, k, tubeCol, num);
      } else {
        FiledAfterStep(sc, micKeys, k, tubeCol, num);
        ghost var fs := MicFilaments(sc, micKeys[k], tubeCol, num).value;
        assert |micData| == |Positions(sc.micrographs, micKeys[k])|;
        assert Filing(filaments, numberOfFilaments, numberOfParticles) ==
               Advance(before, Blocks(sc.rows, fs), |fs|, |Positions(sc.micrographs, micKeys[k])|);
      }
    }

    /** self.filaments[n]: the columns of filament n. */
    function GetAllFilamentData(n: int): (r: Result<seq<seq<Value>>>)
      reads this
      ensures r.Ok? <==> n in filaments
      ensures r.Ok? ==> r.value == filaments[n]
      ensures r.Err? ==> r.error == FilamentKeyError(n)
    {
      if n in filaments then Ok(filaments[n]) else Err(FilamentKeyError(n))
    }

    /** [str(i) for i in self.filaments[n][self.headers[h]]] (see StringColumn). */
    function GetStringListFilamentColumn(n: int, h: string): Result<seq<string>>
      reads this
    {
      StringColumn(filaments, headers, n, h)
    }

    /** len(self.filaments[n][self.headers['rlnMicrographName']]) */
    function GetNumberofParticlesinFilament(n: int): (r: Result<nat>)
      reads this
      ensures r.Ok? <==> n in filaments && "rlnMicrographName" in headers.vals &&
                         -|filaments[n]| <= headers.vals["rlnMicrographName"] < |filaments[n]|
      ensures r.Err? ==> r.error == if n !in filaments then FilamentKeyError(n) else if "rlnMicrographName" !in headers.vals then KeyError("rlnMicrographName") else IndexError
      ensures r.Ok? ==> r.value == |filaments[n][PyIndex(|filaments[n]|, headers.vals["rlnMicrographName"]).value]|
    {
      var cols :- GetAllFilamentData(n);
      var c :- Dicts.Get(headers, "rlnMicrographName");
      var column :- PyGet(cols, c);
      Ok(|column|)
    }

    /** (micrograph name, int(tube id)) read from the first particle of
        filament n. */
    function GetRlnFilamentNumberandMicrograph(n: int): (r: Result<(string, int)>)
      reads this
      ensures r.Ok? ==> GetStringListFilamentColumn(n, "rlnMicrographName").Ok? && GetStringListFilamentColumn(n, "rlnHelicalTubeID").Ok?
      ensures r.Ok? ==> var mics := GetStringListFilamentColumn(n, "rlnMicrographName").value;
                        var tubes := GetStringListFilamentColumn(n, "rlnHelicalTubeID").value;
                        mics != [] && tubes != [] && r.value.0 == mics[0] && ParseInt(tubes[0]) == Some(r.value.1)
      ensures GetStringListFilamentColumn(n, "rlnMicrographName").Err? ==> r == Err(GetStringListFilamentColumn(n, "rlnMicrographName").error)
    {
      var mics :- GetStringListFilamentColumn(n, "rlnMicrographName");
      var mic :- PyGet(mics, 0);
      var tubes :- GetStringListFilamentColumn(n, "rlnHelicalTubeID");
      var tube :- PyGet(tubes, 0);
      match ParseInt(tube)
      case None => Err(ValueError)
      case Some(t) => Ok((mic, t))
    }

    /** addFilamentDataColumn: the column is appended to filament n and its
        name recorded in new_data_headers under
        len(headers) + len(new_data_headers) - 1. When the filament had one
        column per recorded name, that number is the place of the column
        before the appended one, not of the appended column. */
    method AddFilamentDataColumn(n: int, column: seq<Value>, name: string)
      returns (err: Option<PyError>)
      requires Valid()
      modifies this
      ensures Valid()
      ensures err.Some? <==> n !in old(filaments)
      ensures err.Some? ==> err.value == FilamentKeyError(n) && unchanged(this)
      ensures err.None? ==> filaments == old(filaments)[n := old(filaments[n]) + [column]]
      ensures err.None? ==> newDataHeaders == Dicts.Put(old(newDataHeaders), name, Dicts.Len(headers) + Dicts.Len(old(newDataHeaders)) - 1)
      ensures err.None? && |old(filaments[n])| == Dicts.Len(headers) + Dicts.Len(old(newDataHeaders)) ==>
                newDataHeaders.vals[name] == |filaments[n]| - 2 && filaments[n][newDataHeaders.vals[name] + 1] == column
      ensures unchanged(this`filename, this`numberOfFilaments, this`opticsInfo, this`headers, this`starComments, this`numberUpdatedColumns, this`numberOfParticles)
    {
      var newColumnNumber := Dicts.Len(headers) + Dicts.Len(newDataHeaders) - 1;
      var data := GetAllFilamentData(n);
      if data.Err? {
        return Some(data.error);
      }
      newDataHeaders := Dicts.Put(newDataHeaders, name, newColumnNumber);
      filaments := filaments[n := data.value + [column]];
      err := None;
    }

    /** removeParticleData: the filament's columns are turned into rows, row p
        is popped (Python's pop, so a negative p counts from the end), and
        the rows are turned back into columns. */
    method RemoveParticleData(n: int, p: int) returns (err: Option<PyError>)
      modifies this
      ensures err.None? <==> n in old(filaments) && -|Zip(old(filaments[n]))| <= p < |Zip(old(filaments[n]))|
      ensures err.Some? ==> err.value == (if n !in old(filaments) then FilamentKeyError(n) else IndexError) && unchanged(this)
      ensures err.None? ==> filaments.Keys == old(filaments).Keys && n in filaments
      ensures err.None? ==> forall k :: k in filaments && k != n ==> filaments[k] == old(filaments[k])
      ensures err.None? ==> Zip(old(filaments[n])) != [] &&
                            filaments[n] == Zip(RemoveAt(Zip(old(filaments[n])), PyIndex(|Zip(old(filaments[n]))|, p).value))
      ensures err.None? ==> numberOfParticles == old(numberOfParticles) - 1
      ensures unchanged(this`filename, this`numberOfFilaments, this`opticsInfo, this`headers, this`newDataHeaders, this`starComments, this`numberUpdatedColumns)
    {
      var data := GetAllFilamentData(n);
      if data.Err? {
        return Some(data.error);
      }
      var particles := Zip(data.value);
      var q := PyIndex(|particles|, p);
      if q.None? {
        return Some(IndexError);
      }
      particles := RemoveAt(particles, q.value);
      numberOfParticles := numberOfParticles - 1;
      filaments := filaments[n := Zip(particles)];
      err := None;
    }

    /** writeFilamentsToStarFile: the file name and lines written, or the
        error raised on the way. The headers are redirected to the edited
        columns before the file is opened and stay so, whether or not
        the writing then fails. */
    method WriteFilamentsToStarFile(saveUpdated: bool) returns (r: Result<Written>)
      requires Valid()
      modifies this`headers
      ensures Valid()
      ensures r == WriteSpec(filename, old(headers), newDataHeaders, opticsInfo, starComments, filaments, numberOfFilaments, saveUpdated)
      ensures headers == if old(headers).keys == [] then old(headers) else SavedHeaders(old(headers), newDataHeaders, saveUpdated)
    {
      var ordered := OrderedHeaders(headers);
      if ordered.Err? {
        return Err(ordered.error);
      }
      var names := ordered.value;
      var saveName := RedirectColumns(saveUpdated);
      var head := WriteHeader(opticsInfo, starComments, names, "data_particles");
      if head.Err? {
        return Err(head.error);
      }
      var data := WriteData(filaments, headers, names, numberOfFilaments);
      if data.Err? {
        return Err(data.error);
      }
      r := Ok(Written(saveName + ".star", head.value + data.value));
    }

    /** The loop over new_data_headers: when the edited columns are saved,
        each edited name is pointed at its appended column and appended to
        the file name. */
    method RedirectColumns(saveUpdated: bool) returns (saveName: string)
      requires Valid()
      modifies this`headers
      ensures Valid()
      ensures headers == SavedHeaders(old(headers), newDataHeaders, saveUpdated)
      ensures saveName + ".star" == SaveName(filename, newDataHeaders, saveUpdated)
    {
      saveName := SaveStem(filename);
      if saveUpdated && |newDataHeaders.keys| > 0 {
        var redirected, suffix := Redirect(headers, newDataHeaders);
        headers := redirected;
        saveName := saveName + suffix;
      }
    }

    /** After loading a uniform table, every filament has at least one
        particle, and column h of filament k lists, particle by particle in
        stored order, the token each row has at the column number recorded
        for h (negative numbers counting from the end, as in Python). */
    lemma LoadedColumn(num: string -> Option<real>, ld: Loaded, k: int, h: string)
      requires Built(ld, num) && LoadedFrom(ld) && Uniform(ld.scan) && 0 <= k < |ld.filaments|
      ensures ld.filaments[k].ids != []
      ensures var row := ld.scan.rows[ld.filaments[k].ids[0]];
              GetStringListFilamentColumn(k, h).Ok? <==> h in headers.vals && -|row| <= headers.vals[h] < |row|
      ensures GetStringListFilamentColumn(k, h).Ok? ==>
                var column := GetStringListFilamentColumn(k, h).value;
                |column| == |ld.filaments[k].ids| &&
                forall j :: 0 <= j < |column| ==> PyGet(ld.scan.rows[ld.filaments[k].ids[j]], headers.vals[h]) == Ok(column[j])
    {
      var rows := ld.scan.rows;
      var ids := ld.filaments[k].ids;
      GroupedNonEmpty(ld.scan, num, k);
      var w := |rows[ids[0]]|;
      UniformColumns(rows, ids, w);
      assert filaments[k] == Columns(rows, ids);
    }

    /** After loading a regular table, getNumberofParticlesinFilament gives
        each filament's size, and the sizes add up to number_of_particles. */
    lemma LoadedCounts(num: string -> Option<real>, ld: Loaded)
      requires Built(ld, num) && LoadedFrom(ld) && Regular(ld.scan)
      ensures forall k :: 0 <= k < numberOfFilaments ==> GetNumberofParticlesinFilament(k) == Ok(|ld.filaments[k].ids|)
      ensures TotalSize(ld.filaments) == numberOfParticles
    {
      GroupFilamentsSpec(ld.scan, num);
      forall k | 0 <= k < numberOfFilaments
        ensures GetNumberofParticlesinFilament(k) == Ok(|ld.filaments[k].ids|)
      {
        LoadedColumn(num, ld, k, "rlnMicrographName");
        assert PyGet(ld.scan.rows[ld.filaments[k].ids[0]], headers.vals["rlnMicrographName"]).Ok?;
      }
    }

    /** After loading a regular table, getRlnFilamentNumberandMicrograph gives
        the pair filament k was built for: its micrograph name, and its tube
        id read by int(), which fails with a ValueError when the token is
        not an integer. */
    lemma LoadedIdentity(num: string -> Option<real>, ld: Loaded, k: int)
      requires Built(ld, num) && LoadedFrom(ld) && Regular(ld.scan) && 0 <= k < |ld.filaments|
      ensures GetRlnFilamentNumberandMicrograph(k) ==
              match ParseInt(ld.filaments[k].tube)
              case None => Err(ValueError)
              case Some(t) => Ok((ld.filaments[k].mic, t))
    {
      var f := ld.filaments[k];
      GroupedPair(ld.scan, num, k);
      LoadedColumn(num, ld, k, "rlnMicrographName");
      LoadedColumn(num, ld, k, "rlnHelicalTubeID");
      assert PyGet(ld.scan.rows[f.ids[0]], headers.vals["rlnMicrographName"]) == Ok(f.mic);
    }
  }
}
