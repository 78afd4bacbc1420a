/** How the filament reader turns the data rows into filaments: rows are filed
    under their micrograph name, then under their tube-id token; micrographs
    and tube ids are visited in ascending str order; each group is sorted by
    track length and stored under the next filament number. A filament is
    described here by the file positions of its rows, in stored order. */
module Grouping {
  import opened Errors
  import opened PyText
  import opened Dicts
  import opened Sorting
  import opened StarScan
  import Seqs

  predicate Increasing(s: seq<nat>)
  {
    forall i, j :: 0 <= i < j < |s| ==> s[i] < s[j]
  }

  /** The positions at which x occurs in xs, ascending: the list that
      `d[x].append(num)` builds over `enumerate(xs)`. */
  function Positions(xs: seq<string>, x: string): (r: seq<nat>)
    ensures Increasing(r)
    ensures forall j :: 0 <= j < |r| ==> r[j] < |xs| && xs[r[j]] == x
    ensures forall i :: 0 <= i < |xs| && xs[i] == x ==> i in r
    decreases |xs|
  {
    if xs == [] then []
    else
      var n := |xs| - 1;
      var before := Positions(xs[..n], x);
      assert forall i :: 0 <= i < n ==> xs[..n][i] == xs[i];
      before + (if xs[n] == x then [n] else [])
  }

  lemma PositionsSnoc(xs: seq<string>, x: string, m: string)
    ensures Positions(xs + [x], m) == Positions(xs, m) + (if x == m then [|xs|] else [])
  {
    assert (xs + [x])[..|xs|] == xs;
  }

  /** [s[i] for i in idx] */
  function Pick<T>(s: seq<T>, idx: seq<nat>): (r: seq<T>)
    requires forall j :: 0 <= j < |idx| ==> idx[j] < |s|
    ensures |r| == |idx| && forall j :: 0 <= j < |idx| ==> r[j] == s[idx[j]]
  {
    seq(|idx|, j requires 0 <= j < |idx| => s[idx[j]])
  }

  /** `particle[tube_id_column_number]` for each row in turn; the first row
      too short for the column stops the reader with an IndexError. */
  function TubeTokens(data: seq<seq<string>>, col: int): (r: Result<seq<string>>)
    ensures r.Ok? <==> forall j :: 0 <= j < |data| ==> PyGet(data[j], col).Ok?
    ensures r.Ok? ==> |r.value| == |data|
    ensures r.Ok? ==> forall j :: 0 <= j < |data| ==> PyGet(data[j], col) == Ok(r.value[j])
    ensures r.Err? ==> r.error == IndexError
    decreases |data|
  {
    if data == [] then Ok([])
    else
      var n := |data| - 1;
      assert forall j :: 0 <= j < n ==> data[..n][j] == data[j];
      var toks :- TubeTokens(data[..n], col);
      var t :- PyGet(data[n], col);
      Ok(toks + [t])
  }

  /** `float(x[self.headers['rlnHelicalTrackLengthAngst']])`, the sort key of
      one row; `num` stands for float() and returns None where float() raises
      ValueError. */
  function TrackKey(row: seq<string>, hd: Dict<int>, num: string -> Option<real>): (r: Result<real>)
    ensures r.Err? ==> r.error in {KeyError("rlnHelicalTrackLengthAngst"), IndexError, ValueError}
    ensures r.Ok? ==> "rlnHelicalTrackLengthAngst" in hd.vals
  {
    var col :- Get(hd, "rlnHelicalTrackLengthAngst");
    var cell :- PyGet(row, col);
    match num(cell)
    case None => Err(ValueError)
    case Some(x) => Ok(x)
  }

  /** The sort keys of a group, computed row by row before sorting; the first
      row whose key fails decides the error. */
  function TrackKeys(data: seq<seq<string>>, hd: Dict<int>, num: string -> Option<real>): (r: Result<seq<real>>)
    ensures r.Ok? <==> forall j :: 0 <= j < |data| ==> TrackKey(data[j], hd, num).Ok?
    ensures r.Ok? ==> |r.value| == |data|
    ensures r.Ok? ==> forall j :: 0 <= j < |data| ==> TrackKey(data[j], hd, num) == Ok(r.value[j])
    ensures r.Err? ==> exists j :: 0 <= j < |data| && TrackKey(data[j], hd, num) == Err(r.error)
    decreases |data|
  {
    if data == [] then Ok([])
    else
      var n := |data| - 1;
      assert forall j :: 0 <= j < n ==> data[..n][j] == data[j];
      var keys :- TrackKeys(data[..n], hd, num);
      var k :- TrackKey(data[n], hd, num);
      Ok(keys + [k])
  }

  /** One filament: its micrograph name, its tube-id token, and the file
      positions of its rows in the order they are stored. */
  datatype Filament = Filament(mic: string, tube: string, ids: seq<nat>)

  /** Every data row has the micrograph name it was filed under. */
  predicate WellFormed(sc: Scan)
  {
    |sc.micrographs| == |sc.rows|
  }

  predicate Within(ids: seq<nat>, n: nat)
  {
    forall j :: 0 <= j < |ids| ==> ids[j] < n
  }

  /** The filament of tube-id token t within a micrograph whose rows are at
      file positions idx and carry the tokens toks: its rows sorted by track
      length, stably. */
  function TubeFilament(sc: Scan, m: string, idx: seq<nat>, toks: seq<string>, t: string,
                        num: string -> Option<real>): (r: Result<Filament>)
    requires Within(idx, |sc.rows|) && |toks| == |idx|
    ensures r.Ok? ==> r.value.mic == m && r.value.tube == t && Within(r.value.ids, |sc.rows|)
    ensures r.Ok? ==> |r.value.ids| == |Positions(toks, t)|
  {
    var ids := Pick(idx, Positions(toks, t));
    var keys :- TrackKeys(Pick(sc.rows, ids), sc.headers, num);
    var order := StableOrder(keys, |keys|);
    Ok(Filament(m, t, Pick(ids, order)))
  }

  /** fs holds one filament of micrograph m per tube id of tubes, in that
      order, each made of rows below n. */
  predicate Labelled(fs: seq<Filament>, m: string, tubes: seq<string>, n: nat)
  {
    |fs| == |tubes| && forall k :: 0 <= k < |tubes| ==> fs[k].mic == m && fs[k].tube == tubes[k] && Within(fs[k].ids, n)
  }

  lemma LabelledSnoc(fs: seq<Filament>, f: Filament, m: string, tubes: seq<string>, n: nat)
    requires tubes != [] && Labelled(fs, m, tubes[..|tubes| - 1], n)
    requires f.mic == m && f.tube == tubes[|tubes| - 1] && Within(f.ids, n)
    ensures Labelled(fs + [f], m, tubes, n)
  {
  }

  /** The outcome of building the filament of each tube id of tubes. */
  function TubeResults(sc: Scan, m: string, idx: seq<nat>, toks: seq<string>, tubes: seq<string>,
                       num: string -> Option<real>): (r: seq<Result<Filament>>)
    requires Within(idx, |sc.rows|) && |toks| == |idx|
    ensures |r| == |tubes|
  {
    Seqs.MapSeq(t => TubeFilament(sc, m, idx, toks, t, num), tubes)
  }

  lemma TubeResultsAt(sc: Scan, m: string, idx: seq<nat>, toks: seq<string>, tubes: seq<string>,
                      num: string -> Option<real>, k: nat)
    requires Within(idx, |sc.rows|) && |toks| == |idx| && k < |tubes|
    ensures TubeResults(sc, m, idx, toks, tubes, num)[k] == TubeFilament(sc, m, idx, toks, tubes[k], num)
  {
    Seqs.MapSeqAt(t => TubeFilament(sc, m, idx, toks, t, num), tubes, k);
  }

  /** Building the filaments of a prefix of the tube ids looks at that
      prefix only. */
  lemma TubeResultsPrefix(sc: Scan, m: string, idx: seq<nat>, toks: seq<string>, tubes: seq<string>,
                          num: string -> Option<real>, q: nat)
    requires Within(idx, |sc.rows|) && |toks| == |idx| && q <= |tubes|
    ensures TubeResults(sc, m, idx, toks, tubes[..q], num) == TubeResults(sc, m, idx, toks, tubes, num)[..q]
  {
    Seqs.MapSeqPrefix(t => TubeFilament(sc, m, idx, toks, t, num), tubes, q);
  }

  /** The filaments of a micrograph's tube ids, in the order given; the first
      tube id whose filament cannot be built decides the error. */
  function TubeFilaments(sc: Scan, m: string, idx: seq<nat>, toks: seq<string>, tubes: seq<string>,
                         num: string -> Option<real>): (r: Result<seq<Filament>>)
    requires Within(idx, |sc.rows|) && |toks| == |idx|
    ensures r.Ok? ==> Labelled(r.value, m, tubes, |sc.rows|)
  {
    TubeResultsLabelled(sc, m, idx, toks, tubes, num);
    Collect(TubeResults(sc, m, idx, toks, tubes, num))
  }

  lemma TubeResultsLabelled(sc: Scan, m: string, idx: seq<nat>, toks: seq<string>, tubes: seq<string>,
                            num: string -> Option<real>)
    requires Within(idx, |sc.rows|) && |toks| == |idx|
    ensures Collect(TubeResults(sc, m, idx, toks, tubes, num)).Ok? ==>
              Labelled(Collect(TubeResults(sc, m, idx, toks, tubes, num)).value, m, tubes, |sc.rows|)
  {
    var rs := TubeResults(sc, m, idx, toks, tubes, num);
    if Collect(rs).Ok? {
      var fs := Collect(rs).value;
      forall k | 0 <= k < |tubes| ensures fs[k].mic == m && fs[k].tube == tubes[k] && Within(fs[k].ids, |sc.rows|) {
        TubeResultsAt(sc, m, idx, toks, tubes, num, k);
      }
    }
  }

  /** Filament k of a micrograph's tube loop is the filament of tube id k. */
  lemma TubeFilamentsAt(sc: Scan, m: string, idx: seq<nat>, toks: seq<string>, tubes: seq<string>,
                        num: string -> Option<real>, k: nat)
    requires Within(idx, |sc.rows|) && |toks| == |idx| && k < |tubes|
    requires TubeFilaments(sc, m, idx, toks, tubes, num).Ok?
    ensures TubeFilament(sc, m, idx, toks, tubes[k], num) == Ok(TubeFilaments(sc, m, idx, toks, tubes, num).value[k])
  {
    TubeResultsAt(sc, m, idx, toks, tubes, num, k);
  }

  /** The filaments of all tube ids but the last, then the last one's. */
  lemma TubeFilamentsLast(sc: Scan, m: string, idx: seq<nat>, toks: seq<string>, tubes: seq<string>,
                          num: string -> Option<real>)
    requires Within(idx, |sc.rows|) && |toks| == |idx| && tubes != []
    requires TubeFilaments(sc, m, idx, toks, tubes, num).Ok?
    ensures TubeFilaments(sc, m, idx, toks, tubes[..|tubes| - 1], num).Ok?
    ensures TubeFilaments(sc, m, idx, toks, tubes, num).value ==
            TubeFilaments(sc, m, idx, toks, tubes[..|tubes| - 1], num).value + [TubeFilament(sc, m, idx, toks, tubes[|tubes| - 1], num).value]
  {
    var n := |tubes| - 1;
    TubeResultsPrefix(sc, m, idx, toks, tubes, num, n);
    TubeResultsAt(sc, m, idx, toks, tubes, num, n);
    CollectLast(TubeResults(sc, m, idx, toks, tubes, num));
  }

  /** The filaments of micrograph m: the tube tokens of its rows are read in
      file order, then its tube ids are visited in ascending str order. */
  function MicFilaments(sc: Scan, m: string, tubeCol: int, num: string -> Option<real>): (r: Result<seq<Filament>>)
    requires WellFormed(sc)
    ensures r.Ok? ==> FromMics(r.value, [m], |sc.rows|)
  {
    var idx := Positions(sc.micrographs, m);
    var toks :- TubeTokens(Pick(sc.rows, idx), tubeCol);
    var fs :- TubeFilaments(sc, m, idx, toks, SortedKeys(toks), num);
    LabelledFromMic(fs, m, SortedKeys(toks), |sc.rows|);
    Ok(fs)
  }

  /** Every filament of fs belongs to one of the micrographs mics and is made
      of rows below n. */
  predicate FromMics(fs: seq<Filament>, mics: seq<string>, n: nat)
  {
    forall k :: 0 <= k < |fs| ==> fs[k].mic in mics && Within(fs[k].ids, n)
  }

  lemma LabelledFromMic(fs: seq<Filament>, m: string, tubes: seq<string>, n: nat)
    requires Labelled(fs, m, tubes, n)
    ensures FromMics(fs, [m], n)
  {
  }

  lemma FromMicsAppend(a: seq<Filament>, b: seq<Filament>, mics: seq<string>, n: nat)
    requires mics != [] && FromMics(a, mics[..|mics| - 1], n) && FromMics(b, [mics[|mics| - 1]], n)
    ensures FromMics(a + b, mics, n)
  {
    forall k | 0 <= k < |a| + |b| ensures (a + b)[k].mic in mics && Within((a + b)[k].ids, n) {
      if k < |a| {
        assert a[k].mic in mics[..|mics| - 1];
      }
    }
  }

  /** The outcome of building the filaments of each micrograph of mics. */
  function MicResults(sc: Scan, mics: seq<string>, tubeCol: int, num: string -> Option<real>): (r: seq<Result<seq<Filament>>>)
    requires WellFormed(sc)
    ensures |r| == |mics|
  {
    Seqs.MapSeq(m => MicFilaments(sc, m, tubeCol, num), mics)
  }

  lemma MicResultsAt(sc: Scan, mics: seq<string>, tubeCol: int, num: string -> Option<real>, k: nat)
    requires WellFormed(sc) && k < |mics|
    ensures MicResults(sc, mics, tubeCol, num)[k] == MicFilaments(sc, mics[k], tubeCol, num)
  {
    Seqs.MapSeqAt(m => MicFilaments(sc, m, tubeCol, num), mics, k);
  }

  lemma MicResultsPrefix(sc: Scan, mics: seq<string>, tubeCol: int, num: string -> Option<real>, q: nat)
    requires WellFormed(sc) && q <= |mics|
    ensures MicResults(sc, mics[..q], tubeCol, num) == MicResults(sc, mics, tubeCol, num)[..q]
  {
    Seqs.MapSeqPrefix(m => MicFilaments(sc, m, tubeCol, num), mics, q);
  }

  /** The filaments of the micrographs mics, in the order given, numbered
      consecutively; the first micrograph whose filaments cannot be built
      decides the error. */
  function AllFilaments(sc: Scan, mics: seq<string>, tubeCol: int, num: string -> Option<real>): (r: Result<seq<Filament>>)
    requires WellFormed(sc)
    ensures r.Ok? ==> FromMics(r.value, mics, |sc.rows|)
  {
    MicResultsFrom(sc, mics, tubeCol, num);
    Gather(MicResults(sc, mics, tubeCol, num))
  }

  lemma MicResultsFrom(sc: Scan, mics: seq<string>, tubeCol: int, num: string -> Option<real>)
    requires WellFormed(sc)
    ensures Gather(MicResults(sc, mics, tubeCol, num)).Ok? ==> FromMics(Gather(MicResults(sc, mics, tubeCol, num)).value, mics, |sc.rows|)
  {
    var rs := MicResults(sc, mics, tubeCol, num);
    forall k | 0 <= k < |rs| && rs[k].Ok? ensures FromMics(rs[k].value, [mics[k]], |sc.rows|) {
      MicResultsAt(sc, mics, tubeCol, num, k);
    }
    GatheredFromMics(rs, mics, |sc.rows|);
  }

  /** The filaments of all micrographs but the last, then the last one's. */
  lemma AllFilamentsLast(sc: Scan, mics: seq<string>, tubeCol: int, num: string -> Option<real>)
    requires WellFormed(sc) && mics != [] && AllFilaments(sc, mics, tubeCol, num).Ok?
    ensures AllFilaments(sc, mics[..|mics| - 1], tubeCol, num).Ok?
    ensures MicFilaments(sc, mics[|mics| - 1], tubeCol, num).Ok?
    ensures AllFilaments(sc, mics, tubeCol, num).value ==
            AllFilaments(sc, mics[..|mics| - 1], tubeCol, num).value + MicFilaments(sc, mics[|mics| - 1], tubeCol, num).value
  {
    var n := |mics| - 1;
    MicResultsPrefix(sc, mics, tubeCol, num, n);
    MicResultsAt(sc, mics, tubeCol, num, n);
    GatherLast(MicResults(sc, mics, tubeCol, num));
  }

  /** Gathering blocks of filaments, block k from micrograph mics[k], gives
      filaments from mics. */
  lemma {:induction false} GatheredFromMics(rs: seq<Result<seq<Filament>>>, mics: seq<string>, n: nat)
    requires |rs| == |mics| && forall k :: 0 <= k < |rs| && rs[k].Ok? ==> FromMics(rs[k].value, [mics[k]], n)
    ensures Gather(rs).Ok? ==> FromMics(Gather(rs).value, mics, n)
    decreases |rs|
  {
    if rs != [] && Gather(rs).Ok? {
      var last := |rs| - 1;
      GatherLast(rs);
      assert forall k :: 0 <= k < last ==> rs[..last][k] == rs[k];
      GatheredFromMics(rs[..last], mics[..last], n);
      FromMicsAppend(Gather(rs[..last]).value, rs[last].value, mics, n);
    }
  }

  /** The filaments the reader builds from what its line loop gathered:
      `headers['rlnHelicalTubeID']` (a KeyError when undeclared), then every
      micrograph name in ascending str order. */
  function GroupFilaments(sc: Scan, num: string -> Option<real>): (r: Result<seq<Filament>>)
    requires WellFormed(sc)
    ensures r.Err? && !("rlnHelicalTubeID" in sc.headers.vals) ==> r.error == KeyError("rlnHelicalTubeID")
    ensures r.Ok? ==> FromMics(r.value, sc.micrographs, |sc.rows|)
  {
    var tubeCol :- Get(sc.headers, "rlnHelicalTubeID");
    var fs :- AllFilaments(sc, SortedKeys(sc.micrographs), tubeCol, num);
    FromSortedKeys(fs, sc.micrographs, |sc.rows|);
    Ok(fs)
  }

  lemma FromSortedKeys(fs: seq<Filament>, mics: seq<string>, n: nat)
    requires FromMics(fs, SortedKeys(mics), n)
    ensures FromMics(fs, mics, n)
  {
  }

  /** Row i was filed under micrograph m and has the tube-id token t. */
  predicate Carries(sc: Scan, tubeCol: int, i: nat, m: string, t: string)
    requires WellFormed(sc)
  {
    i < |sc.rows| && sc.micrographs[i] == m && PyGet(sc.rows[i], tubeCol) == Ok(t)
  }

  /** f holds every row that carries its pair exactly once, and no other row. */
  predicate Exact(sc: Scan, tubeCol: int, f: Filament)
    requires WellFormed(sc)
  {
    && Distinct(f.ids)
    && (forall j :: 0 <= j < |f.ids| ==> Carries(sc, tubeCol, f.ids[j], f.mic, f.tube))
    && (forall i: nat :: i < |sc.rows| && Carries(sc, tubeCol, i, f.mic, f.tube) ==> i in f.ids)
  }

  /** Row i goes before row i' in sorted() by track length: a smaller key, or
      an equal key and an earlier place in the file. */
  predicate RowBefore(sc: Scan, num: string -> Option<real>, i: nat, i': nat)
    requires i < |sc.rows| && i' < |sc.rows|
  {
    var a := TrackKey(sc.rows[i], sc.headers, num);
    var b := TrackKey(sc.rows[i'], sc.headers, num);
    a.Ok? && b.Ok? && (a.value < b.value || (a.value == b.value && i < i'))
  }

  predicate TrackSorted(sc: Scan, num: string -> Option<real>, ids: seq<nat>)
    requires Within(ids, |sc.rows|)
  {
    forall a, b :: 0 <= a < b < |ids| ==> RowBefore(sc, num, ids[a], ids[b])
  }

  lemma PickIncreasing(s: seq<nat>, idx: seq<nat>)
    requires Within(idx, |s|) && Increasing(s) && Increasing(idx)
    ensures Increasing(Pick(s, idx))
  {
  }

  /** Reordering an increasing list by a permutation of its positions keeps
      its members, each once. */
  lemma PickPermutation(ids: seq<nat>, order: seq<nat>)
    requires Increasing(ids) && Distinct(order) && forall i: nat :: i in order <==> i < |ids|
    ensures Within(order, |ids|)
    ensures Distinct(Pick(ids, order))
    ensures forall i: nat :: i in Pick(ids, order) <==> i in ids
  {
    assert Within(order, |ids|) by {
      forall j | 0 <= j < |order| ensures order[j] < |ids| {
        assert order[j] in order;
      }
    }
    var r := Pick(ids, order);
    forall i: nat | i in ids ensures i in r {
      var p :| 0 <= p < |ids| && ids[p] == i;
      assert p in order;
      var j :| 0 <= j < |order| && order[j] == p;
      assert r[j] == i;
    }
  }

  /** The rows of micrograph m whose tube token is t, as the reader collects them. */
  lemma PairPositions(sc: Scan, m: string, tubeCol: int, toks: seq<string>, t: string)
    requires WellFormed(sc)
    requires TubeTokens(Pick(sc.rows, Positions(sc.micrographs, m)), tubeCol) == Ok(toks)
    ensures Within(Pick(Positions(sc.micrographs, m), Positions(toks, t)), |sc.rows|)
    ensures Increasing(Pick(Positions(sc.micrographs, m), Positions(toks, t)))
    ensures forall j :: 0 <= j < |Positions(toks, t)| ==>
              Carries(sc, tubeCol, Pick(Positions(sc.micrographs, m), Positions(toks, t))[j], m, t)
    ensures forall i: nat :: Carries(sc, tubeCol, i, m, t) ==> i in Pick(Positions(sc.micrographs, m), Positions(toks, t))
  {
    var idx := Positions(sc.micrographs, m);
    var pos := Positions(toks, t);
    var data := Pick(sc.rows, idx);
    PickIncreasing(idx, pos);
    forall j | 0 <= j < |pos| ensures Carries(sc, tubeCol, Pick(idx, pos)[j], m, t) {
      PairForward(sc, m, tubeCol, idx, data, toks, pos, t, j);
    }
    forall i: nat | Carries(sc, tubeCol, i, m, t) ensures i in Pick(idx, pos) {
      PairBackward(sc, m, tubeCol, idx, data, toks, pos, t, i);
    }
  }

  lemma PairForward(sc: Scan, m: string, tubeCol: int, idx: seq<nat>, data: seq<seq<string>>,
                    toks: seq<string>, pos: seq<nat>, t: string, j: nat)
    requires WellFormed(sc) && idx == Positions(sc.micrographs, m) && data == Pick(sc.rows, idx)
    requires TubeTokens(data, tubeCol) == Ok(toks) && pos == Positions(toks, t) && j < |pos|
    ensures Carries(sc, tubeCol, idx[pos[j]], m, t)
  {
    assert PyGet(data[pos[j]], tubeCol) == Ok(toks[pos[j]]);
  }

  lemma PairBackward(sc: Scan, m: string, tubeCol: int, idx: seq<nat>, data: seq<seq<string>>,
                     toks: seq<string>, pos: seq<nat>, t: string, i: nat)
    requires WellFormed(sc) && idx == Positions(sc.micrographs, m) && data == Pick(sc.rows, idx)
    requires TubeTokens(data, tubeCol) == Ok(toks) && pos == Positions(toks, t)
    requires Carries(sc, tubeCol, i, m, t)
    ensures i in Pick(idx, pos)
  {
    assert i in idx;
    var p :| 0 <= p < |idx| && idx[p] == i;
    assert data[p] == sc.rows[i];
    assert PyGet(data[p], tubeCol) == Ok(toks[p]);
    PickHits(idx, toks, pos, t, p);
  }

  /** Position p of a row whose token is t is picked by Positions(toks, t). */
  lemma PickHits(idx: seq<nat>, toks: seq<string>, pos: seq<nat>, t: string, p: nat)
    requires pos == Positions(toks, t) && p < |toks| == |idx| && toks[p] == t
    ensures idx[p] in Pick(idx, pos)
  {
    assert p in pos;
    var j :| 0 <= j < |pos| && pos[j] == p;
    assert Pick(idx, pos)[j] == idx[p];
  }

  /** Each filament holds exactly the rows of its (micrograph, tube) pair,
      sorted by track length with ties in file order. */
  lemma TubeFilamentExact(sc: Scan, m: string, tubeCol: int, toks: seq<string>, t: string, num: string -> Option<real>)
    requires WellFormed(sc)
    requires TubeTokens(Pick(sc.rows, Positions(sc.micrographs, m)), tubeCol) == Ok(toks)
    requires TubeFilament(sc, m, Positions(sc.micrographs, m), toks, t, num).Ok?
    ensures Exact(sc, tubeCol, TubeFilament(sc, m, Positions(sc.micrographs, m), toks, t, num).value)
    ensures TrackSorted(sc, num, TubeFilament(sc, m, Positions(sc.micrographs, m), toks, t, num).value.ids)
  {
    TubeFilamentIsExact(sc, m, tubeCol, toks, t, num);
    TubeFilamentIsSorted(sc, m, tubeCol, toks, t, num);
  }

  lemma TubeFilamentIsExact(sc: Scan, m: string, tubeCol: int, toks: seq<string>, t: string, num: string -> Option<real>)
    requires WellFormed(sc)
    requires TubeTokens(Pick(sc.rows, Positions(sc.micrographs, m)), tubeCol) == Ok(toks)
    requires TubeFilament(sc, m, Positions(sc.micrographs, m), toks, t, num).Ok?
    ensures Exact(sc, tubeCol, TubeFilament(sc, m, Positions(sc.micrographs, m), toks, t, num).value)
  {
    var ids := Pick(Positions(sc.micrographs, m), Positions(toks, t));
    var keys := TrackKeys(Pick(sc.rows, ids), sc.headers, num).value;
    PairReorderExact(sc, m, tubeCol, toks, t, StableOrder(keys, |keys|));
  }

  lemma TubeFilamentIsSorted(sc: Scan, m: string, tubeCol: int, toks: seq<string>, t: string, num: string -> Option<real>)
    requires WellFormed(sc)
    requires TubeTokens(Pick(sc.rows, Positions(sc.micrographs, m)), tubeCol) == Ok(toks)
    requires TubeFilament(sc, m, Positions(sc.micrographs, m), toks, t, num).Ok?
    ensures TrackSorted(sc, num, TubeFilament(sc, m, Positions(sc.micrographs, m), toks, t, num).value.ids)
  {
    var ids := Pick(Positions(sc.micrographs, m), Positions(toks, t));
    var keys := TrackKeys(Pick(sc.rows, ids), sc.headers, num).value;
    PairReorderSorted(sc, m, tubeCol, toks, t, num, keys, StableOrder(keys, |keys|));
  }

  /** Any reordering of the rows of a pair holds exactly the rows of that pair. */
  lemma PairReorderExact(sc: Scan, m: string, tubeCol: int, toks: seq<string>, t: string, order: seq<nat>)
    requires WellFormed(sc)
    requires TubeTokens(Pick(sc.rows, Positions(sc.micrographs, m)), tubeCol) == Ok(toks)
    requires Distinct(order) && forall i: nat :: i in order <==> i < |Positions(toks, t)|
    ensures Within(order, |Positions(toks, t)|)
    ensures Exact(sc, tubeCol, Filament(m, t, Pick(Pick(Positions(sc.micrographs, m), Positions(toks, t)), order)))
  {
    var ids := Pick(Positions(sc.micrographs, m), Positions(toks, t));
    PairPositions(sc, m, tubeCol, toks, t);
    PickPermutation(ids, order);
    ReorderExact(sc, tubeCol, m, t, ids, order, Pick(ids, order));
  }

  /** Reordering the rows of a pair by their sort keys sorts them by track length. */
  lemma PairReorderSorted(sc: Scan, m: string, tubeCol: int, toks: seq<string>, t: string, num: string -> Option<real>,
                          keys: seq<real>, order: seq<nat>)
    requires WellFormed(sc)
    requires TubeTokens(Pick(sc.rows, Positions(sc.micrographs, m)), tubeCol) == Ok(toks)
    requires TrackKeys(Pick(sc.rows, Pick(Positions(sc.micrographs, m), Positions(toks, t))), sc.headers, num) == Ok(keys)
    requires OrderedBy(keys, order) && |order| == |keys|
    ensures Within(Pick(Pick(Positions(sc.micrographs, m), Positions(toks, t)), order), |sc.rows|)
    ensures TrackSorted(sc, num, Pick(Pick(Positions(sc.micrographs, m), Positions(toks, t)), order))
  {
    var ids := Pick(Positions(sc.micrographs, m), Positions(toks, t));
    PairPositions(sc, m, tubeCol, toks, t);
    ReorderSorted(sc, num, ids, keys, order, Pick(ids, order));
  }

  lemma ReorderExact(sc: Scan, tubeCol: int, m: string, t: string, ids: seq<nat>, order: seq<nat>, out: seq<nat>)
    requires WellFormed(sc) && Within(ids, |sc.rows|) && Within(order, |ids|) && out == Pick(ids, order)
    requires Distinct(out) && forall i: nat :: i in out <==> i in ids
    requires forall j :: 0 <= j < |ids| ==> Carries(sc, tubeCol, ids[j], m, t)
    requires forall i: nat :: Carries(sc, tubeCol, i, m, t) ==> i in ids
    ensures Exact(sc, tubeCol, Filament(m, t, out))
  {
  }

  lemma ReorderSorted(sc: Scan, num: string -> Option<real>, ids: seq<nat>, keys: seq<real>, order: seq<nat>, out: seq<nat>)
    requires Within(ids, |sc.rows|) && Increasing(ids)
    requires TrackKeys(Pick(sc.rows, ids), sc.headers, num) == Ok(keys)
    requires OrderedBy(keys, order) && Within(order, |ids|) && out == Pick(ids, order)
    ensures Within(out, |sc.rows|) && TrackSorted(sc, num, out)
  {
    forall a, b | 0 <= a < b < |out| ensures RowBefore(sc, num, out[a], out[b]) {
      assert Before(keys, order[a], order[b]);
      assert TrackKey(sc.rows[ids[order[a]]], sc.headers, num) == Ok(keys[order[a]]);
      assert TrackKey(sc.rows[ids[order[b]]], sc.headers, num) == Ok(keys[order[b]]);
      if order[a] < order[b] {
        assert ids[order[a]] < ids[order[b]];
      }
    }
  }

  /** A filament as the reader must build it: exactly the rows of its pair,
      in track-length order. */
  predicate Good(sc: Scan, tubeCol: int, num: string -> Option<real>, f: Filament)
    requires WellFormed(sc)
  {
    Within(f.ids, |sc.rows|) && Exact(sc, tubeCol, f) && TrackSorted(sc, num, f.ids)
  }

  lemma TubeFilamentsGood(sc: Scan, m: string, tubeCol: int, toks: seq<string>, tubes: seq<string>,
                          num: string -> Option<real>)
    requires WellFormed(sc)
    requires TubeTokens(Pick(sc.rows, Positions(sc.micrographs, m)), tubeCol) == Ok(toks)
    requires TubeFilaments(sc, m, Positions(sc.micrographs, m), toks, tubes, num).Ok?
    ensures forall k :: 0 <= k < |tubes| ==>
              Good(sc, tubeCol, num, TubeFilaments(sc, m, Positions(sc.micrographs, m), toks, tubes, num).value[k])
  {
    forall k | 0 <= k < |tubes|
      ensures Good(sc, tubeCol, num, TubeFilaments(sc, m, Positions(sc.micrographs, m), toks, tubes, num).value[k])
    {
      TubeFilamentsAt(sc, m, Positions(sc.micrographs, m), toks, tubes, num, k);
      TubeFilamentExact(sc, m, tubeCol, toks, tubes[k], num);
    }
  }

  lemma MicFilamentsGood(sc: Scan, m: string, tubeCol: int, num: string -> Option<real>)
    requires WellFormed(sc) && MicFilaments(sc, m, tubeCol, num).Ok?
    ensures forall k :: 0 <= k < |MicFilaments(sc, m, tubeCol, num).value| ==>
              Good(sc, tubeCol, num, MicFilaments(sc, m, tubeCol, num).value[k])
  {
    var idx := Positions(sc.micrographs, m);
    var toks := TubeTokens(Pick(sc.rows, idx), tubeCol).value;
    TubeFilamentsGood(sc, m, tubeCol, toks, SortedKeys(toks), num);
  }

  lemma {:induction false} AllFilamentsGood(sc: Scan, mics: seq<string>, tubeCol: int, num: string -> Option<real>)
    requires WellFormed(sc) && AllFilaments(sc, mics, tubeCol, num).Ok?
    ensures forall k :: 0 <= k < |AllFilaments(sc, mics, tubeCol, num).value| ==>
              Good(sc, tubeCol, num, AllFilaments(sc, mics, tubeCol, num).value[k])
    decreases |mics|
  {
    if mics != [] {
      var n := |mics| - 1;
      AllFilamentsLast(sc, mics, tubeCol, num);
      AllFilamentsGood(sc, mics[..n], tubeCol, num);
      MicFilamentsGood(sc, mics[n], tubeCol, num);
    }
  }

  /** (micrograph, tube) pairs in the order the reader numbers filaments:
      by micrograph name, then by tube-id token, both as str. */
  predicate PairLt(f: Filament, g: Filament)
  {
    StrLt(f.mic, g.mic) || (f.mic == g.mic && StrLt(f.tube, g.tube))
  }

  predicate Chain(fs: seq<Filament>)
  {
    forall a, b :: 0 <= a < b < |fs| ==> PairLt(fs[a], fs[b])
  }

  lemma MicFilamentsChain(sc: Scan, m: string, tubeCol: int, num: string -> Option<real>)
    requires WellFormed(sc) && MicFilaments(sc, m, tubeCol, num).Ok?
    ensures Chain(MicFilaments(sc, m, tubeCol, num).value)
  {
    var idx := Positions(sc.micrographs, m);
    var toks := TubeTokens(Pick(sc.rows, idx), tubeCol).value;
    var tubes := SortedKeys(toks);
    var fs := TubeFilaments(sc, m, idx, toks, tubes, num).value;
    forall a, b | 0 <= a < b < |fs| ensures PairLt(fs[a], fs[b]) {
      assert fs[a].tube == tubes[a] && fs[b].tube == tubes[b];
    }
  }

  lemma {:induction false} AllFilamentsChain(sc: Scan, mics: seq<string>, tubeCol: int, num: string -> Option<real>)
    requires WellFormed(sc) && StrictlySorted(mics) && AllFilaments(sc, mics, tubeCol, num).Ok?
    ensures Chain(AllFilaments(sc, mics, tubeCol, num).value)
    decreases |mics|
  {
    if mics != [] {
      var n := |mics| - 1;
      var before := AllFilaments(sc, mics[..n], tubeCol, num).value;
      var fs := MicFilaments(sc, mics[n], tubeCol, num).value;
      AllFilamentsLast(sc, mics, tubeCol, num);
      AllFilamentsChain(sc, mics[..n], tubeCol, num);
      MicFilamentsChain(sc, mics[n], tubeCol, num);
      forall a | 0 <= a < |before| ensures StrLt(before[a].mic, mics[n]) {
        var p :| 0 <= p < n && mics[..n][p] == before[a].mic;
        assert StrLt(mics[p], mics[n]);
      }
      ChainAppend(before, fs, mics[n]);
    }
  }

  lemma ChainAppend(before: seq<Filament>, fs: seq<Filament>, m: string)
    requires Chain(before) && Chain(fs)
    requires forall a :: 0 <= a < |before| ==> StrLt(before[a].mic, m)
    requires forall b :: 0 <= b < |fs| ==> fs[b].mic == m
    ensures Chain(before + fs)
  {
    var all := before + fs;
    forall a, b | 0 <= a < b < |all| ensures PairLt(all[a], all[b]) {
      if b >= |before| {
        assert all[b] == fs[b - |before|];
        if a >= |before| {
          assert all[a] == fs[a - |before|];
        }
      }
    }
  }

  /** The number of particles over a list of filaments. */
  function TotalSize(fs: seq<Filament>): nat
    decreases |fs|
  {
    if fs == [] then 0 else TotalSize(fs[..|fs| - 1]) + |fs[|fs| - 1].ids|
  }

  lemma {:induction false} TotalSizeAppend(a: seq<Filament>, b: seq<Filament>)
    ensures TotalSize(a + b) == TotalSize(a) + TotalSize(b)
    decreases |b|
  {
    if b != [] {
      var n := |b| - 1;
      assert (a + b)[..|a + b| - 1] == a + b[..n];
      TotalSizeAppend(a, b[..n]);
    } else {
      assert a + b == a;
    }
  }

  /** How many entries of xs equal one of keys, key by key. */
  function CountSum(keys: seq<string>, xs: seq<string>): nat
    decreases |keys|
  {
    if keys == [] then 0 else CountSum(keys[..|keys| - 1], xs) + |Positions(xs, keys[|keys| - 1])|
  }

  lemma {:induction false} CountSumSnoc(keys: seq<string>, xs: seq<string>, x: string)
    requires Distinct(keys)
    ensures CountSum(keys, xs + [x]) == CountSum(keys, xs) + (if x in keys then 1 else 0)
    decreases |keys|
  {
    if keys != [] {
      var n := |keys| - 1;
      assert (xs + [x])[..|xs|] == xs;
      CountSumSnoc(keys[..n], xs, x);
      assert x in keys <==> x in keys[..n] || x == keys[n];
      if x == keys[n] {
        assert x !in keys[..n];
      }
    }
  }

  /** Counting each distinct key that covers xs adds up to the length of xs:
      every row is counted under exactly one micrograph (or tube id). */
  lemma {:induction false} CountSumAll(keys: seq<string>, xs: seq<string>)
    requires Distinct(keys) && forall i :: 0 <= i < |xs| ==> xs[i] in keys
    ensures CountSum(keys, xs) == |xs|
    decreases |xs|
  {
    if xs == [] {
      CountSumEmpty(keys);
    } else {
      var n := |xs| - 1;
      CountSumAll(keys, xs[..n]);
      CountSumSnoc(keys, xs[..n], xs[n]);
      Seqs.InitLast(xs);
    }
  }

  lemma {:induction false} CountSumEmpty(keys: seq<string>)
    ensures CountSum(keys, []) == 0
    decreases |keys|
  {
    if keys != [] {
      CountSumEmpty(keys[..|keys| - 1]);
    }
  }

  lemma {:induction false} TubeFilamentsSize(sc: Scan, m: string, idx: seq<nat>, toks: seq<string>, tubes: seq<string>,
                                             num: string -> Option<real>)
    requires Within(idx, |sc.rows|) && |toks| == |idx|
    requires TubeFilaments(sc, m, idx, toks, tubes, num).Ok?
    ensures TotalSize(TubeFilaments(sc, m, idx, toks, tubes, num).value) == CountSum(tubes, toks)
    decreases |tubes|
  {
    if tubes != [] {
      var n := |tubes| - 1;
      TubeFilamentsLast(sc, m, idx, toks, tubes, num);
      TubeFilamentsSize(sc, m, idx, toks, tubes[..n], num);
      TotalSizeAppend(TubeFilaments(sc, m, idx, toks, tubes[..n], num).value, [TubeFilament(sc, m, idx, toks, tubes[n], num).value]);
    }
  }

  lemma MicFilamentsSize(sc: Scan, m: string, tubeCol: int, num: string -> Option<real>)
    requires WellFormed(sc) && MicFilaments(sc, m, tubeCol, num).Ok?
    ensures TotalSize(MicFilaments(sc, m, tubeCol, num).value) == |Positions(sc.micrographs, m)|
  {
    var idx := Positions(sc.micrographs, m);
    var toks := TubeTokens(Pick(sc.rows, idx), tubeCol).value;
    var tubes := SortedKeys(toks);
    TubeFilamentsSize(sc, m, idx, toks, tubes, num);
    StrictlySortedDistinct(tubes);
    CountSumAll(tubes, toks);
  }

  lemma {:induction false} AllFilamentsSize(sc: Scan, mics: seq<string>, tubeCol: int, num: string -> Option<real>)
    requires WellFormed(sc) && AllFilaments(sc, mics, tubeCol, num).Ok?
    ensures TotalSize(AllFilaments(sc, mics, tubeCol, num).value) == CountSum(mics, sc.micrographs)
    decreases |mics|
  {
    if mics != [] {
      var n := |mics| - 1;
      AllFilamentsLast(sc, mics, tubeCol, num);
      AllFilamentsSize(sc, mics[..n], tubeCol, num);
      MicFilamentsSize(sc, mics[n], tubeCol, num);
      TotalSizeAppend(AllFilaments(sc, mics[..n], tubeCol, num).value, MicFilaments(sc, mics[n], tubeCol, num).value);
    }
  }

  /** Row i lies in one of the filaments fs. */
  predicate Covered(fs: seq<Filament>, i: nat)
  {
    exists k :: 0 <= k < |fs| && i in fs[k].ids
  }

  lemma CoveredAppend(a: seq<Filament>, b: seq<Filament>, i: nat)
    requires Covered(a, i) || Covered(b, i)
    ensures Covered(a + b, i)
  {
    if Covered(a, i) {
      var k :| 0 <= k < |a| && i in a[k].ids;
      assert (a + b)[k] == a[k];
    } else {
      var k :| 0 <= k < |b| && i in b[k].ids;
      assert (a + b)[|a| + k] == b[k];
    }
  }

  lemma MicFilamentsCover(sc: Scan, m: string, tubeCol: int, num: string -> Option<real>, i: nat)
    requires WellFormed(sc) && MicFilaments(sc, m, tubeCol, num).Ok?
    requires i < |sc.rows| && sc.micrographs[i] == m
    ensures Covered(MicFilaments(sc, m, tubeCol, num).value, i)
  {
    var toks := TubeTokens(Pick(sc.rows, Positions(sc.micrographs, m)), tubeCol).value;
    TubeFilamentsCover(sc, m, tubeCol, toks, SortedKeys(toks), num, i);
  }

  lemma TubeFilamentsCover(sc: Scan, m: string, tubeCol: int, toks: seq<string>, tubes: seq<string>,
                           num: string -> Option<real>, i: nat)
    requires WellFormed(sc) && TubeTokens(Pick(sc.rows, Positions(sc.micrographs, m)), tubeCol) == Ok(toks)
    requires forall t :: t in toks ==> t in tubes
    requires TubeFilaments(sc, m, Positions(sc.micrographs, m), toks, tubes, num).Ok?
    requires i < |sc.rows| && sc.micrographs[i] == m
    ensures Covered(TubeFilaments(sc, m, Positions(sc.micrographs, m), toks, tubes, num).value, i)
  {
    var t := RowToken(sc, m, tubeCol, toks, i);
    var q :| 0 <= q < |tubes| && tubes[q] == t;
    TubeFilamentsAt(sc, m, Positions(sc.micrographs, m), toks, tubes, num, q);
    TubeFilamentExact(sc, m, tubeCol, toks, t, num);
    assert i in TubeFilaments(sc, m, Positions(sc.micrographs, m), toks, tubes, num).value[q].ids;
  }

  /** A row of micrograph m carries one of the tube tokens read for m. */
  lemma RowToken(sc: Scan, m: string, tubeCol: int, toks: seq<string>, i: nat) returns (t: string)
    requires WellFormed(sc) && TubeTokens(Pick(sc.rows, Positions(sc.micrographs, m)), tubeCol) == Ok(toks)
    requires i < |sc.rows| && sc.micrographs[i] == m
    ensures t in toks && Carries(sc, tubeCol, i, m, t)
  {
    var idx := Positions(sc.micrographs, m);
    var data := Pick(sc.rows, idx);
    assert i in idx;
    var p :| 0 <= p < |idx| && idx[p] == i;
    assert PyGet(data[p], tubeCol) == Ok(toks[p]);
    t := toks[p];
  }

  lemma {:induction false} AllFilamentsCover(sc: Scan, mics: seq<string>, tubeCol: int, num: string -> Option<real>, i: nat)
    requires WellFormed(sc) && AllFilaments(sc, mics, tubeCol, num).Ok?
    requires i < |sc.rows| && sc.micrographs[i] in mics
    ensures Covered(AllFilaments(sc, mics, tubeCol, num).value, i)
    decreases |mics|
  {
    assert mics != [];
    var n := |mics| - 1;
    var before := AllFilaments(sc, mics[..n], tubeCol, num).value;
    var fs := MicFilaments(sc, mics[n], tubeCol, num).value;
    AllFilamentsLast(sc, mics, tubeCol, num);
    if sc.micrographs[i] == mics[n] {
      MicFilamentsCover(sc, mics[n], tubeCol, num, i);
    } else {
      InFront(mics, sc.micrographs[i]);
      AllFilamentsCover(sc, mics[..n], tubeCol, num, i);
    }
    CoveredAppend(before, fs, i);
  }

  lemma InFront(s: seq<string>, x: string)
    requires x in s && x != s[|s| - 1]
    ensures x in s[..|s| - 1]
  {
    var p :| 0 <= p < |s| && s[p] == x;
    assert s[..|s| - 1][p] == x;
  }

  /** What the filament reader's grouping guarantees: each filament holds
      exactly the rows of one (micrograph, tube-id token) pair, sorted by track
      length with ties in file order; the pairs ascend by micrograph name and
      then tube-id token as str, so no pair has two filaments; every data row
      lies in some filament, and the filament sizes add up to the number of
      data rows. */
  lemma GroupFilamentsSpec(sc: Scan, num: string -> Option<real>)
    requires WellFormed(sc) && GroupFilaments(sc, num).Ok?
    ensures "rlnHelicalTubeID" in sc.headers.vals
    ensures forall k :: 0 <= k < |GroupFilaments(sc, num).value| ==>
              Good(sc, sc.headers.vals["rlnHelicalTubeID"], num, GroupFilaments(sc, num).value[k])
    ensures Chain(GroupFilaments(sc, num).value)
    ensures forall i: nat :: i < |sc.rows| ==> Covered(GroupFilaments(sc, num).value, i)
    ensures TotalSize(GroupFilaments(sc, num).value) == |sc.rows|
  {
    var tubeCol := sc.headers.vals["rlnHelicalTubeID"];
    var mics := SortedKeys(sc.micrographs);
    AllFilamentsGood(sc, mics, tubeCol, num);
    AllFilamentsChain(sc, mics, tubeCol, num);
    AllFilamentsSize(sc, mics, tubeCol, num);
    StrictlySortedDistinct(mics);
    CountSumAll(mics, sc.micrographs);
    forall i: nat | i < |sc.rows| ensures Covered(GroupFilaments(sc, num).value, i) {
      assert sc.micrographs[i] in mics;
      AllFilamentsCover(sc, mics, tubeCol, num, i);
    }
  }

  /** One more tube id of a micrograph's tube loop. */
  lemma TubeFilamentsStep(sc: Scan, m: string, idx: seq<nat>, toks: seq<string>, tubes: seq<string>,
                          num: string -> Option<real>, q: nat)
    requires Within(idx, |sc.rows|) && |toks| == |idx| && q < |tubes|
    requires TubeFilaments(sc, m, idx, toks, tubes[..q], num).Ok?
    ensures TubeFilaments(sc, m, idx, toks, tubes[..q + 1], num) ==
            match TubeFilament(sc, m, idx, toks, tubes[q], num)
            case Err(e) => Err(e)
            case Ok(f) => Ok(TubeFilaments(sc, m, idx, toks, tubes[..q], num).value + [f])
  {
    var rs := TubeResults(sc, m, idx, toks, tubes, num);
    TubeResultsPrefix(sc, m, idx, toks, tubes, num, q);
    TubeResultsPrefix(sc, m, idx, toks, tubes, num, q + 1);
    TubeResultsAt(sc, m, idx, toks, tubes, num, q);
    CollectStep(rs, q);
  }

  /** Once the tube loop has failed, the rest of the tube ids do not matter. */
  lemma TubeFilamentsStop(sc: Scan, m: string, idx: seq<nat>, toks: seq<string>, tubes: seq<string>,
                          num: string -> Option<real>, q: nat)
    requires Within(idx, |sc.rows|) && |toks| == |idx| && q <= |tubes|
    requires TubeFilaments(sc, m, idx, toks, tubes[..q], num).Err?
    ensures TubeFilaments(sc, m, idx, toks, tubes, num) == TubeFilaments(sc, m, idx, toks, tubes[..q], num)
  {
    TubeResultsPrefix(sc, m, idx, toks, tubes, num, q);
    CollectFailed(TubeResults(sc, m, idx, toks, tubes, num), q);
  }

  /** One more micrograph of the reader's micrograph loop. */
  lemma AllFilamentsStep(sc: Scan, mics: seq<string>, tubeCol: int, num: string -> Option<real>, k: nat)
    requires WellFormed(sc) && k < |mics|
    requires AllFilaments(sc, mics[..k], tubeCol, num).Ok?
    ensures AllFilaments(sc, mics[..k + 1], tubeCol, num) ==
            match MicFilaments(sc, mics[k], tubeCol, num)
            case Err(e) => Err(e)
            case Ok(fs) => Ok(AllFilaments(sc, mics[..k], tubeCol, num).value + fs)
  {
    var rs := MicResults(sc, mics, tubeCol, num);
    MicResultsPrefix(sc, mics, tubeCol, num, k);
    MicResultsPrefix(sc, mics, tubeCol, num, k + 1);
    MicResultsAt(sc, mics, tubeCol, num, k);
    GatherStep(rs, k);
  }

  /** Once the micrograph loop has failed, the rest of the micrographs do not matter. */
  lemma AllFilamentsStop(sc: Scan, mics: seq<string>, tubeCol: int, num: string -> Option<real>, k: nat)
    requires WellFormed(sc) && k <= |mics|
    requires AllFilaments(sc, mics[..k], tubeCol, num).Err?
    ensures AllFilaments(sc, mics, tubeCol, num) == AllFilaments(sc, mics[..k], tubeCol, num)
  {
    MicResultsPrefix(sc, mics, tubeCol, num, k);
    GatherFailed(MicResults(sc, mics, tubeCol, num), k);
  }

  /** No filament is empty: each is built for a tube id that some row carries. */
  predicate NoneEmpty(fs: seq<Filament>)
  {
    forall k :: 0 <= k < |fs| ==> fs[k].ids != []
  }

  lemma NoneEmptyAppend(a: seq<Filament>, b: seq<Filament>)
    requires NoneEmpty(a) && NoneEmpty(b)
    ensures NoneEmpty(a + b)
  {
    assert forall k :: 0 <= k < |a| ==> (a + b)[k] == a[k];
    assert forall k :: |a| <= k < |a| + |b| ==> (a + b)[k] == b[k - |a|];
  }

  /** A tube id that some row carries has at least one position. */
  lemma PositionsOfPresent(toks: seq<string>, t: string)
    requires t in toks
    ensures Positions(toks, t) != []
  {
    var i :| 0 <= i < |toks| && toks[i] == t;
    assert i in Positions(toks, t);
  }

  lemma TubeFilamentsNoneEmpty(sc: Scan, m: string, idx: seq<nat>, toks: seq<string>, tubes: seq<string>,
                               num: string -> Option<real>)
    requires Within(idx, |sc.rows|) && |toks| == |idx| && forall t :: t in tubes ==> t in toks
    requires TubeFilaments(sc, m, idx, toks, tubes, num).Ok?
    ensures NoneEmpty(TubeFilaments(sc, m, idx, toks, tubes, num).value)
  {
    forall k | 0 <= k < |tubes| ensures TubeFilaments(sc, m, idx, toks, tubes, num).value[k].ids != [] {
      TubeFilamentsAt(sc, m, idx, toks, tubes, num, k);
      PositionsOfPresent(toks, tubes[k]);
    }
  }

  lemma MicFilamentsNoneEmpty(sc: Scan, m: string, tubeCol: int, num: string -> Option<real>)
    requires WellFormed(sc) && MicFilaments(sc, m, tubeCol, num).Ok?
    ensures NoneEmpty(MicFilaments(sc, m, tubeCol, num).value)
  {
    var idx := Positions(sc.micrographs, m);
    var toks := TubeTokens(Pick(sc.rows, idx), tubeCol).value;
    TubeFilamentsNoneEmpty(sc, m, idx, toks, SortedKeys(toks), num);
  }

  lemma {:induction false} AllFilamentsNoneEmpty(sc: Scan, mics: seq<string>, tubeCol: int, num: string -> Option<real>)
    requires WellFormed(sc) && AllFilaments(sc, mics, tubeCol, num).Ok?
    ensures NoneEmpty(AllFilaments(sc, mics, tubeCol, num).value)
    decreases |mics|
  {
    if mics != [] {
      var n := |mics| - 1;
      AllFilamentsLast(sc, mics, tubeCol, num);
      AllFilamentsNoneEmpty(sc, mics[..n], tubeCol, num);
      MicFilamentsNoneEmpty(sc, mics[n], tubeCol, num);
      NoneEmptyAppend(AllFilaments(sc, mics[..n], tubeCol, num).value, MicFilaments(sc, mics[n], tubeCol, num).value);
    }
  }
}
