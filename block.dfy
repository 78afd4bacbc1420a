/** The flat view of a STAR file (class readBlockDataFromStarfile): every data
    row kept as read, plus a column-major mirror that callers extend with
    columns of their own, edit cell by cell, filter by an angle and save. */
module Block {
  import opened Errors
  import opened PyText
  import Dicts
  import opened Pivot
  import opened Values
  import opened StarScan
  import opened Seqs
  import opened StarWrite

  type Dict<V> = Dicts.Dict<V>

  /** One entry of particle_data_block. The columns zip(*) builds are tuples,
      which refuse item assignment; the columns callers append are lists. */
  datatype Column = Column(cells: seq<Value>, isList: bool)

  /** list(zip(*rows)): the columns of the rows as tuples of their tokens. */
  function TupleColumns(rows: seq<seq<string>>): (cols: seq<Column>)
    ensures |cols| == MinWidth(rows)
    ensures forall j :: 0 <= j < |cols| ==> !cols[j].isList && |cols[j].cells| == |rows|
    ensures forall j, i :: 0 <= j < |cols| && 0 <= i < |rows| ==> cols[j].cells[i] == Text(rows[i][j])
  {
    var z := Zip(rows);
    seq(|z|, j requires 0 <= j < |z| => Column(Texts(z[j]), false))
  }

  /** What loadBlockDataFromStar leaves: the line loop's result, refused with
      a NameError when the file has no data row (temp_data_block is then
      never assigned). */
  function BlockLoad(raw: seq<string>): (r: Result<Scan>)
    ensures r.Ok? <==> ScanAll(CleanLines(raw), BlockReader).Ok? && ScanAll(CleanLines(raw), BlockReader).value.rows != []
    ensures r.Ok? ==> r.value == ScanAll(CleanLines(raw), BlockReader).value
    ensures r.Err? ==> r.error == if ScanAll(CleanLines(raw), BlockReader).Err? then ScanAll(CleanLines(raw), BlockReader).error else NameError
  {
    var sc :- ScanAll(CleanLines(raw), BlockReader);
    if sc.rows == [] then Err(NameError) else Ok(sc)
  }

  /** [i for i, n in enumerate(cells) if n == value]: every position whose
      cell equals the value, each once, in ascending order. */
  function Positions(cells: seq<Value>, value: Value): (r: seq<nat>)
    ensures forall k :: 0 <= k < |r| ==> r[k] < |cells| && cells[r[k]] == value
    ensures forall k, l :: 0 <= k < l < |r| ==> r[k] < r[l]
    ensures forall i :: 0 <= i < |cells| && cells[i] == value ==> i in r
    decreases |cells|
  {
    if cells == [] then []
    else
      var n := |cells| - 1;
      var prev := Positions(cells[..n], value);
      assert forall i :: 0 <= i < n ==> cells[..n][i] == cells[i];
      if cells[n] == value then prev + [n] else prev
  }

  /** The angle of a cell as numpy reads it into a float32 array: a token by
      the float parse, an int as itself. */
  function Angle(num: string -> Option<real>, v: Value): Option<real>
  {
    match v
    case Text(t) => num(t)
    case Int(n) => Some(n as real)
  }

  /** Whether every cell of a column has an angle, so that the float32
      conversion succeeds; otherwise numpy falls back to an array of strings. */
  predicate AllAngles(num: string -> Option<real>, cells: seq<Value>)
  {
    forall i :: 0 <= i < |cells| ==> Angle(num, cells[i]).Some?
  }

  /** The test selectAngularRange applies to an angle a:
      lo < a < hi, or else lo - 180 < a < hi - 180. */
  predicate InRange(a: real, lo: int, hi: int)
  {
    (lo as real < a && hi as real > a) || ((lo - 180) as real < a && (hi - 180) as real > a)
  }

  /** The rows selectAngularRange keeps from the first n particles, in order,
      or the error the loop raises: an IndexError when the angle column or
      the particles run out, a TypeError when the angles could not all be
      read (a number compared with a string). */
  function SelectRows(particles: seq<seq<string>>, cells: seq<Value>, num: string -> Option<real>, lo: int, hi: int, n: nat)
    : (r: Result<seq<seq<string>>>)
    ensures r.Ok? ==> |r.value| <= n
    decreases n
  {
    if n == 0 then Ok([])
    else
      var prev :- SelectRows(particles, cells, num, lo, hi, n - 1);
      var p := n - 1;
      if p >= |cells| then Err(IndexError)
      else if !AllAngles(num, cells) then Err(TypeError)
      else if InRange(Angle(num, cells[p]).value, lo, hi) then
        if p >= |particles| then Err(IndexError) else Ok(prev + [particles[p]])
      else Ok(prev)
  }

  /** Given enough angles and particles, all of them readable, the rows kept
      are exactly those whose angle passes the test, in their original order. */
  lemma {:induction false} SelectRowsExactly(particles: seq<seq<string>>, cells: seq<Value>, num: string -> Option<real>,
                                             lo: int, hi: int, n: nat)
    requires n <= |cells| && n <= |particles| && AllAngles(num, cells)
    ensures SelectRows(particles, cells, num, lo, hi, n).Ok?
    ensures SelectRows(particles, cells, num, lo, hi, n).value == Kept(particles, cells, num, lo, hi, n)
    decreases n
  {
    if n > 0 {
      SelectRowsExactly(particles, cells, num, lo, hi, n - 1);
    }
  }

  /** The rows among the first n whose angle passes the test. */
  ghost function Kept(particles: seq<seq<string>>, cells: seq<Value>, num: string -> Option<real>, lo: int, hi: int, n: nat)
    : (r: seq<seq<string>>)
    requires n <= |cells| && n <= |particles| && AllAngles(num, cells)
    decreases n
  {
    if n == 0 then []
    else
      var p := n - 1;
      Kept(particles, cells, num, lo, hi, p) + (if InRange(Angle(num, cells[p]).value, lo, hi) then [particles[p]] else [])
  }

  /** A row is kept exactly when its angle passes the test. */
  lemma {:induction false} KeptMembers(particles: seq<seq<string>>, cells: seq<Value>, num: string -> Option<real>,
                                       lo: int, hi: int, n: nat)
    requires n <= |cells| && n <= |particles| && AllAngles(num, cells)
    ensures |Kept(particles, cells, num, lo, hi, n)| == |Picked(cells, num, lo, hi, n)|
    ensures forall k :: 0 <= k < |Picked(cells, num, lo, hi, n)| ==>
              Kept(particles, cells, num, lo, hi, n)[k] == particles[Picked(cells, num, lo, hi, n)[k]]
    decreases n
  {
    if n > 0 {
      KeptMembers(particles, cells, num, lo, hi, n - 1);
    }
  }

  /** The positions among the first n whose angle passes the test: ascending,
      and containing each passing position. */
  ghost function Picked(cells: seq<Value>, num: string -> Option<real>, lo: int, hi: int, n: nat): (r: seq<nat>)
    requires n <= |cells| && AllAngles(num, cells)
    ensures forall k :: 0 <= k < |r| ==> r[k] < n && InRange(Angle(num, cells[r[k]]).value, lo, hi)
    ensures forall k, l :: 0 <= k < l < |r| ==> r[k] < r[l]
    decreases n
  {
    if n == 0 then []
    else
      var p := n - 1;
      Picked(cells, num, lo, hi, p) + (if InRange(Angle(num, cells[p]).value, lo, hi) then [p] else [])
  }

  /** Every passing position among the first n is picked. */
  lemma {:induction false} PickedComplete(cells: seq<Value>, num: string -> Option<real>, lo: int, hi: int, n: nat, p: nat)
    requires n <= |cells| && AllAngles(num, cells) && p < n && InRange(Angle(num, cells[p]).value, lo, hi)
    ensures p in Picked(cells, num, lo, hi, n)
    decreases n
  {
    if p < n - 1 {
      PickedComplete(cells, num, lo, hi, n - 1, p);
    }
  }

  /** The test is two open intervals: for (80, 100), 260 is refused and
      -90 is kept. */
  lemma WrapBranch()
    ensures !InRange(260.0, 80, 100)
    ensures InRange(-90.0, 80, 100)
    ensures InRange(90.0, 80, 100)
  {
  }

  /** [str(x) for x in pdb[hd[h]]]: the column number is looked up first,
      then the column. */
  function DataColumn(pdb: seq<Column>, hd: Dict<int>, h: string): (r: Result<seq<string>>)
    ensures r.Ok? <==> h in hd.vals && -|pdb| <= hd.vals[h] < |pdb|
    ensures r.Err? ==> r.error == if h !in hd.vals then KeyError(h) else IndexError
    ensures r.Ok? ==> var c := pdb[PyIndex(|pdb|, hd.vals[h]).value].cells;
                      |r.value| == |c| && forall j :: 0 <= j < |c| ==> r.value[j] == Render(c[j])
  {
    var c :- Dicts.Get(hd, h);
    var column :- PyGet(pdb, c);
    Ok(RenderAll(column.cells))
  }

  /** pdb[c][p] = v: a column number or particle number out of range is an
      IndexError, a tuple column a TypeError; the column assigned to keeps
      its place and every other cell is left as it was. */
  function SetCell(pdb: seq<Column>, c: int, p: int, v: Value): (r: Result<seq<Column>>)
    ensures r.Ok? <==> -|pdb| <= c < |pdb| && pdb[PyIndex(|pdb|, c).value].isList &&
                       -|pdb[PyIndex(|pdb|, c).value].cells| <= p < |pdb[PyIndex(|pdb|, c).value].cells|
    ensures r.Err? ==> r.error == if !(-|pdb| <= c < |pdb|) then IndexError
                                  else if !pdb[PyIndex(|pdb|, c).value].isList then TypeError else IndexError
    ensures r.Ok? ==> var j := PyIndex(|pdb|, c).value;
                      var q := PyIndex(|pdb[j].cells|, p).value;
                      && |r.value| == |pdb|
                      && (forall k :: 0 <= k < |pdb| && k != j ==> r.value[k] == pdb[k])
                      && r.value[j].isList && |r.value[j].cells| == |pdb[j].cells| && r.value[j].cells[q] == v
                      && (forall i :: 0 <= i < |pdb[j].cells| && i != q ==> r.value[j].cells[i] == pdb[j].cells[i])
  {
    match PyIndex(|pdb|, c)
    case None => Err(IndexError)
    case Some(j) =>
      if !pdb[j].isList then Err(TypeError)
      else
        match PyIndex(|pdb[j].cells|, p)
        case None => Err(IndexError)
        case Some(q) => Ok(pdb[j := Column(pdb[j].cells[q := v], true)])
  }

  /** [0] * n */
  function Zeros(n: nat): (r: seq<Value>)
    ensures |r| == n && forall i :: 0 <= i < n ==> r[i] == Int(0)
  {
    seq(n, i => Int(0))
  }

  /** `pdb[hd[key]] = pdb[nd[key]]` for each key of ks in turn: the new
      columns and the error that stopped the loop, if any. The source column
      is fetched first, then the target number looked up, then assigned. */
  function CopyColumns(pdb: seq<Column>, hd: Dict<int>, nd: Dict<int>, ks: seq<string>): (r: (seq<Column>, Option<PyError>))
    requires forall k :: k in ks ==> k in nd.vals
    ensures |r.0| == |pdb|
    decreases |ks|
  {
    if ks == [] then (pdb, None)
    else
      var key := ks[0];
      match PyGet(pdb, nd.vals[key])
      case Err(e) => (pdb, Some(e))
      case Ok(source) =>
        if key !in hd.vals then (pdb, Some(KeyError(key)))
        else
          match PyIndex(|pdb|, hd.vals[key])
          case None => (pdb, Some(IndexError))
          case Some(t) => CopyColumns(pdb[t := source], hd, nd, ks[1..])
  }

  /** The column a key is copied from and the column it is copied to. */
  function Source(n: nat, nd: Dict<int>, key: string): Option<nat>
  {
    if key in nd.vals then PyIndex(n, nd.vals[key]) else None
  }

  function Target(n: nat, hd: Dict<int>, key: string): Option<nat>
  {
    if key in hd.vals then PyIndex(n, hd.vals[key]) else None
  }

  /** Every key names a column to copy from and a declared column to copy
      to, no two keys copy to the same column, and no key copies to a column
      another key copies from. */
  predicate CopyPlan(n: nat, hd: Dict<int>, nd: Dict<int>, ks: seq<string>)
  {
    && (forall i :: 0 <= i < |ks| ==> Source(n, nd, ks[i]).Some? && Target(n, hd, ks[i]).Some?)
    && (forall i, j :: 0 <= i < j < |ks| ==> Target(n, hd, ks[i]) != Target(n, hd, ks[j]))
    && (forall i, j :: 0 <= i < |ks| && 0 <= j < |ks| ==> Target(n, hd, ks[i]) != Source(n, nd, ks[j]))
  }

  /** Under such a plan the loop completes, each target column holds what its
      source column held before, and every other column is unchanged. */
  lemma {:induction false} CopyColumnsPlan(pdb: seq<Column>, hd: Dict<int>, nd: Dict<int>, ks: seq<string>)
    requires forall k :: k in ks ==> k in nd.vals
    requires CopyPlan(|pdb|, hd, nd, ks)
    ensures CopyColumns(pdb, hd, nd, ks).1 == None
    ensures forall i :: 0 <= i < |ks| ==>
              CopyColumns(pdb, hd, nd, ks).0[Target(|pdb|, hd, ks[i]).value] == pdb[Source(|pdb|, nd, ks[i]).value]
    ensures forall j :: 0 <= j < |pdb| && (forall i :: 0 <= i < |ks| ==> Target(|pdb|, hd, ks[i]) != Some(j)) ==>
              CopyColumns(pdb, hd, nd, ks).0[j] == pdb[j]
    decreases |ks|
  {
    if ks != [] {
      var key, rest := ks[0], ks[1..];
      var s, t := Source(|pdb|, nd, key).value, Target(|pdb|, hd, key).value;
      var next := pdb[t := pdb[s]];
      assert CopyColumns(pdb, hd, nd, ks) == CopyColumns(next, hd, nd, rest);
      CopyPlanTail(|pdb|, hd, nd, ks);
      CopyColumnsPlan(next, hd, nd, rest);
      var r := CopyColumns(next, hd, nd, rest).0;
      forall i | 0 <= i < |ks|
        ensures r[Target(|pdb|, hd, ks[i]).value] == pdb[Source(|pdb|, nd, ks[i]).value]
      {
        if i == 0 {
          assert forall m :: 0 <= m < |rest| ==> Target(|pdb|, hd, rest[m]) != Some(t) by {
            forall m | 0 <= m < |rest| ensures Target(|pdb|, hd, rest[m]) != Some(t) {
              assert rest[m] == ks[m + 1];
            }
          }
        } else {
          assert ks[i] == rest[i - 1];
          assert Source(|pdb|, nd, ks[i]) != Some(t);
        }
      }
      forall j | 0 <= j < |pdb| && (forall i :: 0 <= i < |ks| ==> Target(|pdb|, hd, ks[i]) != Some(j))
        ensures r[j] == pdb[j]
      {
        assert Target(|pdb|, hd, ks[0]) != Some(j);
        forall m | 0 <= m < |rest| ensures Target(|pdb|, hd, rest[m]) != Some(j) {
          assert rest[m] == ks[m + 1];
        }
      }
    }
  }

  /** The rest of a plan is a plan. */
  lemma CopyPlanTail(n: nat, hd: Dict<int>, nd: Dict<int>, ks: seq<string>)
    requires ks != [] && CopyPlan(n, hd, nd, ks)
    ensures CopyPlan(n, hd, nd, ks[1..])
  {
    var rest := ks[1..];
    assert forall i :: 0 <= i < |rest| ==> rest[i] == ks[i + 1];
  }

  /** The keys from i on are key i, then the keys after it. */
  lemma CopyKeysFrom(ks: seq<string>, nd: Dict<int>, i: nat)
    requires i < |ks| && forall k :: k in ks ==> k in nd.vals
    ensures forall k :: k in ks[i..] ==> k in nd.vals
    ensures forall k :: k in ks[i + 1..] ==> k in nd.vals
    ensures ks[i..] != [] && ks[i..][0] == ks[i] && ks[i..][1..] == ks[i + 1..]
  {
    assert ks[i..][0] == ks[i];
    assert ks[i..][1..] == ks[i + 1..];
  }

  /** The rows selectAngularRange keeps, or the error it raises: a KeyError
      or IndexError looking up the angle column, an error of the particle
      loop, or a NameError when no row is kept. */
  function Selection(pdb: seq<Column>, hd: Dict<int>, particles: seq<seq<string>>, n: nat, h: string,
                     num: string -> Option<real>, lo: int, hi: int): (r: Result<seq<seq<string>>>)
    ensures r.Ok? ==> r.value != [] && |r.value| <= n
  {
    var c :- Dicts.Get(hd, h);
    var column :- PyGet(pdb, c);
    var kept :- SelectRows(particles, column.cells, num, lo, hi, n);
    if kept == [] then Err(NameError) else Ok(kept)
  }

  /** The header name selectAngularRange records: h + 'Range' + str(lo) + 'to' + str(hi). */
  function RangeName(h: string, lo: int, hi: int): string
  {
    h + "Range" + IntToStr(lo) + "to" + IntToStr(hi)
  }

  /** The string columns of the named headers, in order; the first that
      cannot be read decides the error. */
  function BlockColumns(pdb: seq<Column>, hd: Dict<int>, names: seq<string>): (r: Result<seq<seq<string>>>)
    ensures r.Ok? <==> forall j :: 0 <= j < |names| ==> DataColumn(pdb, hd, names[j]).Ok?
    ensures r.Ok? ==> |r.value| == |names| && forall j :: 0 <= j < |names| ==> DataColumn(pdb, hd, names[j]) == Ok(r.value[j])
  {
    Collect(ColumnResults(pdb, hd, names))
  }

  function ColumnResults(pdb: seq<Column>, hd: Dict<int>, names: seq<string>): (rs: seq<Result<seq<string>>>)
    ensures |rs| == |names| && forall j :: 0 <= j < |names| ==> rs[j] == DataColumn(pdb, hd, names[j])
  {
    seq(|names|, j requires 0 <= j < |names| => DataColumn(pdb, hd, names[j]))
  }

  /** self.headers after the optional first loop of writeBlockDatatoStar,
      which points every name of new_data_headers at its column without
      touching the file name. */
  function NewHeaders(hd: Dict<int>, nd: Dict<int>, saveNew: bool): (r: Dict<int>)
    requires Dicts.Valid(hd) && Dicts.Valid(nd)
    ensures Dicts.Valid(r)
  {
    if saveNew then Overlay(hd, nd, nd.keys) else hd
  }

  /** What writeBlockDatatoStar writes: like the filament writer, except that
      with save_new_data the new names are first added to the headers and so
      declared as well, the block marker is written `_data_particles`, and the
      data lines are the rows of the whole block. */
  function BlockWriteSpec(filename: string, hd: Dict<int>, nd: Dict<int>, opticsInfo: seq<string>, comments: seq<string>,
                          pdb: seq<Column>, saveUpdated: bool, saveNew: bool): (r: Result<Written>)
    requires Dicts.Valid(hd) && Dicts.Valid(nd)
  {
    var hd1 := NewHeaders(hd, nd, saveNew);
    var names :- OrderedHeaders(hd1);
    var pre :- Preamble(opticsInfo, comments, "_data_particles");
    var cols :- BlockColumns(pdb, SavedHeaders(hd1, nd, saveUpdated), names);
    Ok(Written(SaveName(filename, nd, saveUpdated), pre + DeclLines(names, 1) + RowLines(Zip(cols))))
  }

  /** The block writer fails with a NameError when there are no headers to
      declare, and with an IndexError when there are but no comment line. */
  lemma BlockWriteFails(filename: string, hd: Dict<int>, nd: Dict<int>, opticsInfo: seq<string>, comments: seq<string>,
                        pdb: seq<Column>, saveUpdated: bool, saveNew: bool)
    requires Dicts.Valid(hd) && Dicts.Valid(nd)
    ensures NewHeaders(hd, nd, saveNew).keys == [] ==>
              BlockWriteSpec(filename, hd, nd, opticsInfo, comments, pdb, saveUpdated, saveNew) == Err(NameError)
    ensures NewHeaders(hd, nd, saveNew).keys != [] && comments == [] ==>
              BlockWriteSpec(filename, hd, nd, opticsInfo, comments, pdb, saveUpdated, saveNew) == Err(IndexError)
  {
  }

  /** The lines the block writer wrote are the preamble, the declarations
      and the rows. */
  lemma BlockWriteParts(filename: string, hd: Dict<int>, nd: Dict<int>, opticsInfo: seq<string>, comments: seq<string>,
                        pdb: seq<Column>, saveUpdated: bool, saveNew: bool, w: Written, names: seq<string>, cols: seq<seq<string>>)
    requires Dicts.Valid(hd) && Dicts.Valid(nd)
    requires BlockWriteSpec(filename, hd, nd, opticsInfo, comments, pdb, saveUpdated, saveNew) == Ok(w)
    requires OrderedHeaders(NewHeaders(hd, nd, saveNew)) == Ok(names)
    requires BlockColumns(pdb, SavedHeaders(NewHeaders(hd, nd, saveNew), nd, saveUpdated), names) == Ok(cols)
    ensures comments != []
    ensures w.lines == BlockHeader(opticsInfo, comments, names) + RowLines(Zip(cols))
  {
  }

  /** The lines the block writer puts before the data: the preamble and the
      declarations. */
  function BlockHeader(opticsInfo: seq<string>, comments: seq<string>, names: seq<string>): (lines: seq<string>)
    requires comments != []
    ensures |lines| == |Preamble(opticsInfo, comments, "_data_particles").value| + |names|
  {
    Preamble(opticsInfo, comments, "_data_particles").value + DeclLines(names, 1)
  }

  /** Without an optics block, the lines the block writer wrote start with
      the six lines of its preamble. */
  lemma BlockWritePrefix(filename: string, hd: Dict<int>, nd: Dict<int>, comments: seq<string>,
                         pdb: seq<Column>, saveUpdated: bool, saveNew: bool, w: Written)
    requires Dicts.Valid(hd) && Dicts.Valid(nd)
    requires BlockWriteSpec(filename, hd, nd, [], comments, pdb, saveUpdated, saveNew) == Ok(w)
    ensures comments != [] && 6 <= |w.lines|
    ensures w.lines == ["", " " + comments[0] + " ", "", "_data_particles", "", "loop_"] + w.lines[6..]
  {
    BlockWriteOk(filename, hd, nd, [], comments, pdb, saveUpdated, saveNew, w);
    var names := OrderedHeaders(NewHeaders(hd, nd, saveNew)).value;
    var cols := BlockColumns(pdb, SavedHeaders(NewHeaders(hd, nd, saveNew), nd, saveUpdated), names).value;
    BlockWriteParts(filename, hd, nd, [], comments, pdb, saveUpdated, saveNew, w, names, cols);
    var pre := Preamble([], comments, "_data_particles").value;
    assert pre == ["", " " + comments[0] + " ", "", "_data_particles", "", "loop_"];
    assert BlockHeader([], comments, names) == pre + DeclLines(names, 1);
    AppendAssoc(pre, DeclLines(names, 1), RowLines(Zip(cols)));
    PrefixRest(pre, DeclLines(names, 1) + RowLines(Zip(cols)), w.lines);
  }

  /** A block the writer wrote had its headers and columns in hand. */
  lemma BlockWriteOk(filename: string, hd: Dict<int>, nd: Dict<int>, opticsInfo: seq<string>, comments: seq<string>,
                     pdb: seq<Column>, saveUpdated: bool, saveNew: bool, w: Written)
    requires Dicts.Valid(hd) && Dicts.Valid(nd)
    requires BlockWriteSpec(filename, hd, nd, opticsInfo, comments, pdb, saveUpdated, saveNew) == Ok(w)
    ensures comments != [] && OrderedHeaders(NewHeaders(hd, nd, saveNew)).Ok?
    ensures BlockColumns(pdb, SavedHeaders(NewHeaders(hd, nd, saveNew), nd, saveUpdated),
                         OrderedHeaders(NewHeaders(hd, nd, saveNew)).value).Ok?
  {
  }

  /** The block writer declares each header exactly once in column-number
      order, and with save_new_data the names of new_data_headers among them. */
  lemma BlockDeclared(hd: Dict<int>, nd: Dict<int>, saveNew: bool, names: seq<string>)
    requires Dicts.Valid(hd) && Dicts.Valid(nd)
    requires OrderedHeaders(NewHeaders(hd, nd, saveNew)) == Ok(names)
    ensures EachColumnOnce(NewHeaders(hd, nd, saveNew), names) && ByColumnNumber(NewHeaders(hd, nd, saveNew), names)
    ensures forall k :: k in hd.vals ==> k in names
    ensures saveNew ==> forall k :: k in nd.vals ==> k in names
  {
    if saveNew {
      OverlayValues(hd, nd, nd.keys);
    }
  }

  /** Splitting a line gives cell k of each column, field by field. */
  predicate LineOf(line: string, cols: seq<seq<string>>, k: nat)
  {
    var f := Split(line);
    |f| == |cols| && forall j :: 0 <= j < |cols| ==> k < |cols[j]| && f[j] == cols[j][k]
  }

  /** From line m on, line m + k splits into cell k of each column, and there
      are as many such lines as the shortest column has cells. */
  predicate RowsFrom(lines: seq<string>, m: nat, cols: seq<seq<string>>)
  {
    m <= |lines| && |lines| - m == MinWidth(cols) && forall i :: m <= i < |lines| ==> LineOf(lines[i], cols, i - m)
  }

  /** After the preamble and the declarations, splitting data line i gives
      back, field by field, the string of particle i in each declared column
      as finally redirected; there are as many data lines as the shortest
      column has particles. */
  lemma BlockRowsWritten(filename: string, hd: Dict<int>, nd: Dict<int>, opticsInfo: seq<string>, comments: seq<string>,
                         pdb: seq<Column>, saveUpdated: bool, saveNew: bool, w: Written, names: seq<string>, cols: seq<seq<string>>)
    requires Dicts.Valid(hd) && Dicts.Valid(nd)
    requires BlockWriteSpec(filename, hd, nd, opticsInfo, comments, pdb, saveUpdated, saveNew) == Ok(w)
    requires OrderedHeaders(NewHeaders(hd, nd, saveNew)) == Ok(names)
    requires BlockColumns(pdb, SavedHeaders(NewHeaders(hd, nd, saveNew), nd, saveUpdated), names) == Ok(cols)
    requires forall j, i :: 0 <= j < |cols| && 0 <= i < |cols[j]| ==> cols[j][i] != [] && NoSpace(cols[j][i])
    ensures comments != []
    ensures RowsFrom(w.lines, |BlockHeader(opticsInfo, comments, names)|, cols)
  {
    BlockWriteParts(filename, hd, nd, opticsInfo, comments, pdb, saveUpdated, saveNew, w, names, cols);
    RowsAfter(w.lines, BlockHeader(opticsInfo, comments, names), cols, |BlockHeader(opticsInfo, comments, names)|);
  }

  /** Lines that end with the rows of some columns split back, line by line,
      into those columns' cells. */
  lemma RowsAfter(lines: seq<string>, head: seq<string>, cols: seq<seq<string>>, m: nat)
    requires lines == head + RowLines(Zip(cols)) && m == |head|
    requires forall j, i :: 0 <= j < |cols| && 0 <= i < |cols[j]| ==> cols[j][i] != [] && NoSpace(cols[j][i])
    ensures RowsFrom(lines, m, cols)
  {
    var data := RowLines(Zip(cols));
    DataLines(cols, data);
    Shifted(lines, head, data, (l, k) => k >= 0 && LineOf(l, cols, k), m);
  }

  /** Data line k splits into cell k of each column. */
  lemma DataLines(cols: seq<seq<string>>, data: seq<string>)
    requires data == RowLines(Zip(cols))
    requires forall j, i :: 0 <= j < |cols| && 0 <= i < |cols[j]| ==> cols[j][i] != [] && NoSpace(cols[j][i])
    ensures |data| == MinWidth(cols)
    ensures forall k :: 0 <= k < |data| ==> LineOf(data[k], cols, k)
  {
    ColumnLinesFields(cols);
  }

  /** Facts about the lines after a head, moved to their place in the whole. */
  lemma Shifted<T>(lines: seq<T>, head: seq<T>, data: seq<T>, P: (T, int) -> bool, m: nat)
    requires lines == head + data && m == |head|
    requires forall k :: 0 <= k < |data| ==> P(data[k], k)
    ensures m <= |lines| && |lines| - m == |data|
    ensures forall i :: m <= i < |lines| ==> P(lines[i], i - m)
  {
    forall i | m <= i < |lines| ensures P(lines[i], i - m) {
      AppendAt(head, data, i - m);
    }
  }

  /** The block writer's `_data_particles` line cannot be read back: without
      an optics block, either reader takes it for a column declaration with
      no number and raises an IndexError. */
  lemma BlockHeaderUnreadable(filename: string, hd: Dict<int>, nd: Dict<int>, comments: seq<string>,
                              pdb: seq<Column>, saveUpdated: bool, saveNew: bool, w: Written, v: Variant)
    requires Dicts.Valid(hd) && Dicts.Valid(nd)
    requires BlockWriteSpec(filename, hd, nd, [], comments, pdb, saveUpdated, saveNew) == Ok(w)
    requires CommentLine(comments[0])
    ensures ScanAll(CleanLines(w.lines), v) == Err(IndexError)
  {
    BlockWritePrefix(filename, hd, nd, comments, pdb, saveUpdated, saveNew, w);
    UnreadableAfter(comments[0], w.lines, w.lines[6..], v);
  }

  lemma UnreadableAfter(c: string, lines: seq<string>, rest: seq<string>, v: Variant)
    requires CommentLine(c) && lines == ["", " " + c + " ", "", "_data_particles", "", "loop_"] + rest
    ensures ScanAll(CleanLines(lines), v) == Err(IndexError)
  {
    var marker := "_data_particles";
    var pre := ["", " " + c + " ", "", marker, "", "loop_"];
    assert Stripped(marker);
    CleanTailPart(c, marker);
    CleanLinesAppend(pre, rest);
    ReadMarker(c, marker, "loop_", CleanLines(rest), v);
  }

  /** A comment and then `_data_particles`, outside an optics block. */
  lemma ReadMarker(c: string, marker: string, loop: string, rest: seq<string>, v: Variant)
    requires CommentLine(c) && marker == "_data_particles" && loop == "loop_" && NonBlank(rest)
    ensures NonBlank([c, marker, loop] + rest)
    ensures ScanAll([c, marker, loop] + rest, v) == Err(IndexError)
  {
    var lines := [c, marker, loop] + rest;
    forall k | 0 <= k < |lines| ensures lines[k] != [] {
      if k >= 3 {
        assert lines[k] == rest[k - 3];
      }
    }
    var st := InitialScan();
    ScanFromFirst(st, lines, v);
    StepComment(st, c, v);
    var st1 := st.(comments := st.comments + [c]);
    var tail := lines[1..];
    assert tail[0] == marker;
    ScanFromFirst(st1, tail, v);
    StepMarker(st1, v);
  }

  /** Outside an optics block `_data_particles` is a declaration without a
      number. */
  lemma StepMarker(st: Scan, v: Variant)
    requires Dicts.Valid(st.headers) && !st.optics
    ensures Step(st, "_data_particles", v) == Err(IndexError)
  {
    var m := "_data_particles";
    assert m[0] == '_';
    assert NoSpace(m);
    SplitSingle(m);
    ClassifyUnderscore(m, v);
  }

  /** The assignment updateParticleData and updateParticleDataNewHeader make:
      the column number is looked up in d (a KeyError when h is missing),
      then the cell is set as SetCell says. */
  function CellUpdate(pdb: seq<Column>, d: Dict<int>, h: string, p: int, v: Value): (r: Result<seq<Column>>)
    ensures h !in d.vals ==> r == Err(KeyError(h))
    ensures h in d.vals ==> r == SetCell(pdb, d.vals[h], p, v)
  {
    var c :- Dicts.Get(d, h);
    SetCell(pdb, c, p, v)
  }

  /** The particle loop of selectAngularRange over the first n particles. */
  method SelectLoop(particles: seq<seq<string>>, cells: seq<Value>, num: string -> Option<real>, lo: int, hi: int, n: nat)
    returns (r: Result<seq<seq<string>>>)
    ensures r == SelectRows(particles, cells, num, lo, hi, n)
  {
    var numeric := AllAngles(num, cells);
    var kept: seq<seq<string>> := [];
    for p := 0 to n
      invariant SelectRows(particles, cells, num, lo, hi, p) == Ok(kept)
    {
      if p >= |cells| {
        SelectRowsStop(particles, cells, num, lo, hi, p + 1, n);
        return Err(IndexError);
      }
      if !numeric {
        SelectRowsStop(particles, cells, num, lo, hi, p + 1, n);
        return Err(TypeError);
      }
      var a := Angle(num, cells[p]).value;
      if lo as real < a && hi as real > a {
        if p >= |particles| {
          SelectRowsStop(particles, cells, num, lo, hi, p + 1, n);
          return Err(IndexError);
        }
        kept := kept + [particles[p]];
      } else if (lo - 180) as real < a && (hi - 180) as real > a {
        if p >= |particles| {
          SelectRowsStop(particles, cells, num, lo, hi, p + 1, n);
          return Err(IndexError);
        }
        kept := kept + [particles[p]];
      }
    }
    r := Ok(kept);
  }

  /** Once the loop has raised, the later particles do not matter. */
  lemma {:induction false} SelectRowsStop(particles: seq<seq<string>>, cells: seq<Value>, num: string -> Option<real>,
                                          lo: int, hi: int, k: nat, n: nat)
    requires k <= n && SelectRows(particles, cells, num, lo, hi, k).Err?
    ensures SelectRows(particles, cells, num, lo, hi, n) == SelectRows(particles, cells, num, lo, hi, k)
    decreases n
  {
    if k < n {
      SelectRowsStop(particles, cells, num, lo, hi, k, n - 1);
    }
  }

  /** The loop of writeBlockDatatoStar that gathers the string column of each
      declared name, in order. */
  method GatherColumns(pdb: seq<Column>, hd: Dict<int>, names: seq<string>) returns (r: Result<seq<seq<string>>>)
    ensures r == BlockColumns(pdb, hd, names)
  {
    ghost var rs := ColumnResults(pdb, hd, names);
    var cols: seq<seq<string>> := [];
    for k := 0 to |names|
      invariant Collect(rs[..k]) == Ok(cols)
    {
      var column := DataColumn(pdb, hd, names[k]);
      CollectStep(rs, k);
      if column.Err? {
        CollectFailed(rs, k + 1);
        return Err(column.error);
      }
      cols := cols + [column.value];
    }
    assert rs[..|names|] == rs;
    r := Ok(cols);
  }

  /** The loop of updateColumnsWithNewData over the keys of nd. */
  method CopyEach(pdb: seq<Column>, hd: Dict<int>, nd: Dict<int>) returns (pdb': seq<Column>, err: Option<PyError>)
    requires Dicts.Valid(nd)
    ensures (pdb', err) == CopyColumns(pdb, hd, nd, nd.keys)
  {
    var keys := nd.keys;
    pdb' := pdb;
    assert keys[0..] == keys;
    for i := 0 to |keys|
      invariant forall k :: k in keys[i..] ==> k in nd.vals
      invariant CopyColumns(pdb, hd, nd, keys) == CopyColumns(pdb', hd, nd, keys[i..])
    {
      CopyKeysFrom(keys, nd, i);
      var key := keys[i];
      var source := PyGet(pdb', nd.vals[key]);
      if source.Err? {
        return pdb', Some(source.error);
      }
      if key !in hd.vals {
        return pdb', Some(KeyError(key));
      }
      var t := PyIndex(|pdb'|, hd.vals[key]);
      if t.None? {
        return pdb', Some(IndexError);
      }
      pdb' := pdb'[t.value := source.value];
    }
    err := None;
  }

  /** The file once its header and columns are in hand: the header lines
      then one line per row of the columns. */
  function BlockWritten(name: string, head: Result<seq<string>>, cols: Result<seq<seq<string>>>): Result<Written>
  {
    var h :- head;
    var c :- cols;
    Ok(Written(name, h + RowLines(Zip(c))))
  }

  /** No header to order: the writer stops with a NameError. */
  lemma BlockWriteUnordered(filename: string, hd: Dict<int>, nd: Dict<int>, opticsInfo: seq<string>, comments: seq<string>,
                            pdb: seq<Column>, saveUpdated: bool, saveNew: bool)
    requires Dicts.Valid(hd) && Dicts.Valid(nd)
    requires OrderedHeaders(NewHeaders(hd, nd, saveNew)).Err?
    ensures BlockWriteSpec(filename, hd, nd, opticsInfo, comments, pdb, saveUpdated, saveNew) ==
            Err(OrderedHeaders(NewHeaders(hd, nd, saveNew)).error)
  {
  }

  /** The writer's steps, in the order it takes them, give BlockWriteSpec. */
  lemma BlockWriteSteps(filename: string, hd: Dict<int>, nd: Dict<int>, opticsInfo: seq<string>, comments: seq<string>,
                        pdb: seq<Column>, saveUpdated: bool, saveNew: bool,
                        names: seq<string>, hd2: Dict<int>, head: Result<seq<string>>, cols: Result<seq<seq<string>>>, r: Result<Written>)
    requires Dicts.Valid(hd) && Dicts.Valid(nd)
    requires OrderedHeaders(NewHeaders(hd, nd, saveNew)) == Ok(names)
    requires hd2 == SavedHeaders(NewHeaders(hd, nd, saveNew), nd, saveUpdated)
    requires head.Err? <==> comments == []
    requires head.Err? ==> head.error == IndexError
    requires head.Ok? ==> head.value == Preamble(opticsInfo, comments, "_data_particles").value + DeclLines(names, 1)
    requires cols == BlockColumns(pdb, hd2, names)
    requires r == BlockWritten(SaveName(filename, nd, saveUpdated), head, cols)
    ensures r == BlockWriteSpec(filename, hd, nd, opticsInfo, comments, pdb, saveUpdated, saveNew)
  {
  }

  /** After a load, getStringDataColumn of a declared column that every row
      reaches gives back, particle by particle, that row's token. */
  lemma LoadedColumnReads(rows: seq<seq<string>>, hd: Dict<int>, h: string)
    requires h in hd.vals && 0 <= hd.vals[h] < MinWidth(rows)
    ensures var r := DataColumn(TupleColumns(rows), hd, h);
            && r.Ok? && |r.value| == |rows|
            && forall i :: 0 <= i < |rows| ==> r.value[i] == rows[i][hd.vals[h]]
  {
    var c := hd.vals[h];
    var cols := TupleColumns(rows);
    assert PyIndex(|cols|, c) == Some(c);
    forall i | 0 <= i < |rows| ensures Render(cols[c].cells[i]) == rows[i][c] {
      assert cols[c].cells[i] == Text(rows[i][c]);
    }
  }

  /** After a load the columns are tuples: updateParticleData on any
      declared column in range is a TypeError, whatever the particle. */
  lemma LoadedColumnsFrozen(rows: seq<seq<string>>, hd: Dict<int>, h: string, p: int, v: Value)
    requires h in hd.vals && 0 <= hd.vals[h] < MinWidth(rows)
    ensures CellUpdate(TupleColumns(rows), hd, h, p, v) == Err(TypeError)
  {
    assert PyIndex(|TupleColumns(rows)|, hd.vals[h]) == Some(hd.vals[h]);
  }

  /** With one column per recorded name, the column addEmptyDataColumn
      appends is the one its name points at: updateParticleDataNewHeader on
      that name sets exactly cell p of the new column of zeros. */
  lemma EmptyColumnUpdates(pdb: seq<Column>, hd: Dict<int>, nd: Dict<int>, name: string, n: nat, p: nat, v: Value)
    requires Dicts.Valid(nd) && name !in nd.vals
    requires |pdb| == Dicts.Len(hd) + Dicts.Len(nd) && p < n
    ensures CellUpdate(pdb + [Column(Zeros(n), true)], Dicts.Put(nd, name, Dicts.Len(hd) + Dicts.Len(nd)), name, p, v) ==
            Ok(pdb + [Column(Zeros(n)[p := v], true)])
  {
    var pdb' := pdb + [Column(Zeros(n), true)];
    assert PyIndex(|pdb'|, |pdb|) == Some(|pdb|);
    assert PyIndex(n, p) == Some(p);
    assert pdb'[|pdb| := Column(Zeros(n)[p := v], true)] == pdb + [Column(Zeros(n)[p := v], true)];
  }

  /** With one column per recorded name, addColumntoBlockData records its
      name one column short: updateParticleDataNewHeader on that name
      writes into the column before the appended one, which is a tuple
      after a load. */
  lemma AddedColumnMisplaced(pdb: seq<Column>, hd: Dict<int>, nd: Dict<int>, name: string, column: seq<Value>, p: int, v: Value)
    requires Dicts.Valid(nd) && 1 <= |pdb| == Dicts.Len(hd) + Dicts.Len(nd)
    requires !pdb[|pdb| - 1].isList
    ensures CellUpdate(pdb + [Column(column, true)], Dicts.Put(nd, name, Dicts.Len(hd) + Dicts.Len(nd) - 1), name, p, v) == Err(TypeError)
  {
    assert PyIndex(|pdb| + 1, |pdb| - 1) == Some(|pdb| - 1);
  }

  class BlockStar {
    var filename: string
    var headers: Dict<int>
    var opticsInfo: seq<string>
    /** The columns, as tuples after loading or selecting, or as the lists
        callers append. */
    var particleDataBlock: seq<Column>
    /** The data rows as loaded, one list of tokens per particle. */
    var particles: seq<seq<string>>
    var newDataHeaders: Dict<int>
    var numberOfParticles: nat
    var starComments: seq<string>
    /** The attribute selectAngularRange stores its rows in, spelt `paticles`
        as it is; `particles` itself is left as loaded. None until then. */
    var paticles: Option<seq<seq<string>>>

    /** The fields as __init__ sets them before loading. */
    predicate Initial()
      reads this
    {
      && headers == Dicts.Empty() && opticsInfo == [] && particleDataBlock == [] && particles == []
      && newDataHeaders == Dicts.Empty() && numberOfParticles == 0 && starComments == [] && paticles == None
    }

    /** Both dicts keep each key once in their key order. */
    predicate Valid()
      reads this
    {
      Dicts.Valid(headers) && Dicts.Valid(newDataHeaders)
    }

    constructor Init(filename: string)
      ensures this.filename == filename && Initial() && Valid()
    {
      this.filename := filename;
      headers := Dicts.Empty();
      opticsInfo := [];
      particleDataBlock := [];
      particles := [];
      newDataHeaders := Dicts.Empty();
      numberOfParticles := 0;
      starComments := [];
      paticles := None;
    }

    /** The line loop of loadBlockDataFromStar: comment lines, the optics
        block and the column declarations go into the fields, each data row
        is kept in temp_data_block and counted in number_of_particles. */
    method ScanLines(lines: seq<string>) returns (err: Option<PyError>, rows: seq<seq<string>>, ghost sc: Scan)
      requires NonBlank(lines) && Initial()
      modifies this`starComments, this`opticsInfo, this`headers, this`numberOfParticles
      ensures err.None? <==> ScanAll(lines, BlockReader).Ok?
      ensures err.Some? ==> err.value == ScanAll(lines, BlockReader).error
      ensures err.None? ==> ScanAll(lines, BlockReader) == Ok(sc) && rows == sc.rows
      ensures err.None? ==> (starComments, opticsInfo, headers, numberOfParticles) == (sc.comments, sc.opticsInfo, sc.headers, |sc.rows|)
    {
      var optics := false;
      rows := [];
      sc := InitialScan();
      var i := 0;
      while i < |lines|
        invariant 0 <= i <= |lines|
        invariant ScanFrom(InitialScan(), lines[..i], BlockReader) == Ok(sc) && rows == sc.rows
        invariant (optics, starComments, opticsInfo, headers, numberOfParticles) == (sc.optics, sc.comments, sc.opticsInfo, sc.headers, |sc.rows|)
      {
        err, optics, rows, sc := ScanNext(lines, i, lines[i], optics, rows, sc);
        if err.Some? {
          return;
        }
        i := i + 1;
      }
      assert lines[..i] == lines;
      return None, rows, sc;
    }

    /** One pass of the line loop, as it changes the fields, the optics flag
        and the rows kept so far. */
    method ScanNext(ghost lines: seq<string>, i: nat, line: string, optics: bool, rows: seq<seq<string>>, ghost sc: Scan)
      returns (err: Option<PyError>, optics': bool, rows': seq<seq<string>>, ghost sc': Scan)
      requires NonBlank(lines) && i < |lines| && line == lines[i]
      requires ScanFrom(InitialScan(), lines[..i], BlockReader) == Ok(sc) && rows == sc.rows
      requires (optics, starComments, opticsInfo, headers, numberOfParticles) == (sc.optics, sc.comments, sc.opticsInfo, sc.headers, |sc.rows|)
      modifies this`starComments, this`opticsInfo, this`headers, this`numberOfParticles
      ensures err.Some? ==> ScanAll(lines, BlockReader) == Err(err.value)
      ensures err.None? ==> ScanFrom(InitialScan(), lines[..i + 1], BlockReader) == Ok(sc') && rows' == sc'.rows
      ensures err.None? ==> (optics', starComments, opticsInfo, headers, numberOfParticles) == (sc'.optics, sc'.comments, sc'.opticsInfo, sc'.headers, |sc'.rows|)
    {
      optics', rows', sc' := optics, rows, sc;
      ScanStep(InitialScan(), lines, i, sc, BlockReader);
      ScanStopsAt(InitialScan(), lines, i, sc, BlockReader);
      var kind := Classify(line, optics, BlockReader);
      if kind.Err? {
        return Some(kind.error), optics, rows, sc;
      }
      ghost var next := Apply(sc, line, kind.value, BlockReader);
      assert Step(sc, line, BlockReader) == next;
      match kind.value {
        case Comment =>
          starComments := starComments + [line];
        case OpticsStart =>
          optics' := true;
          opticsInfo := opticsInfo + [line];
        case ParticlesStart =>
          optics' := false;
        case BlockReset =>
          optics' := false;
        case OpticsLine =>
          opticsInfo := opticsInfo + [line];
        case LoopMarker =>
        case ColumnDecl(name, index) =>
          headers := Dicts.Put(headers, name, index);
        case DataRow(fields) =>
          rows' := rows + [fields];
          numberOfParticles := numberOfParticles + 1;
      }
      sc' := next.value;
      err := None;
    }

    /** The state a successful load leaves. */
    ghost predicate LoadedFrom(sc: Scan)
      reads this
    {
      && starComments == sc.comments
      && opticsInfo == sc.opticsInfo
      && headers == sc.headers
      && particles == sc.rows
      && particleDataBlock == TupleColumns(sc.rows)
      && numberOfParticles == |sc.rows|
      && newDataHeaders == Dicts.Empty()
      && paticles == None
    }

    /** loadBlockDataFromStar on the file's raw lines. */
    method LoadBlockDataFromStar(raw: seq<string>) returns (err: Option<PyError>)
      requires Initial()
      modifies this`starComments, this`opticsInfo, this`headers, this`numberOfParticles, this`particles, this`particleDataBlock
      ensures err.None? <==> BlockLoad(raw).Ok?
      ensures err.Some? ==> err.value == BlockLoad(raw).error
      ensures err.None? ==> LoadedFrom(BlockLoad(raw).value) && Valid()
    {
      var rows: seq<seq<string>>;
      ghost var sc: Scan;
      err, rows, sc := ScanLines(CleanLines(raw));
      if err.Some? {
        return;
      }
      if |rows| == 0 {
        return Some(NameError);
      }
      particles := rows;
      particleDataBlock := TupleColumns(rows);
    }

    /** getStringDataColumn (see DataColumn). */
    function GetStringDataColumn(h: string): Result<seq<string>>
      reads this
    {
      DataColumn(particleDataBlock, headers, h)
    }

    /** list(self.particles[p]) */
    function GetOneParticleData(p: int): (r: Result<seq<string>>)
      reads this
      ensures r.Ok? <==> -|particles| <= p < |particles|
      ensures r.Err? ==> r.error == IndexError
      ensures r.Ok? ==> r.value in particles
      ensures r.Ok? ==> r.value == if p < 0 then particles[|particles| + p] else particles[p]
    {
      PyGet(particles, p)
    }

    /** self.particle_data_block[self.headers[h]][p], the cell itself. */
    function GetParticleSpecificDataString(p: int, h: string): (r: Result<Value>)
      reads this
      ensures h !in headers.vals ==> r == Err(KeyError(h))
      ensures h in headers.vals ==>
                var c := PyGet(particleDataBlock, headers.vals[h]);
                && (c.Err? ==> r == Err(IndexError))
                && (c.Ok? ==> r == PyGet(c.value.cells, p))
    {
      var c :- Dicts.Get(headers, h);
      var column :- PyGet(particleDataBlock, c);
      PyGet(column.cells, p)
    }

    /** addColumntoBlockData. The type test is taken as the code reads:
        `not np.ndarray` is always False, so anything but a list is refused.
        The length and shape test then reads only the first cell, whose len()
        is a TypeError for an int. The name is recorded under
        len(headers) + len(new_data_headers) - 1: when there was one column
        per recorded name, that is the number of the column before the
        appended one. */
    method AddColumntoBlockData(column: seq<Value>, isList: bool, name: string) returns (err: Option<PyError>)
      requires Valid()
      modifies this`newDataHeaders, this`particleDataBlock
      ensures Valid()
      ensures err.Some? <==> !isList || |column| != numberOfParticles || column == [] || column[0].Int? || |column[0].text| != 1
      ensures err.Some? ==> err.value == (if !isList then TypeError else if |column| != numberOfParticles then ValueError
                                          else if column == [] then IndexError else if column[0].Int? then TypeError else ValueError)
      ensures err.Some? ==> newDataHeaders == old(newDataHeaders) && particleDataBlock == old(particleDataBlock)
      ensures err.None? ==> newDataHeaders == Dicts.Put(old(newDataHeaders), name, Dicts.Len(headers) + Dicts.Len(old(newDataHeaders)) - 1)
      ensures err.None? ==> particleDataBlock == old(particleDataBlock) + [Column(column, true)]
      ensures err.None? && |old(particleDataBlock)| == Dicts.Len(headers) + Dicts.Len(old(newDataHeaders)) ==>
                newDataHeaders.vals[name] == |particleDataBlock| - 2 && particleDataBlock[newDataHeaders.vals[name] + 1].cells == column
    {
      if !isList {
        return Some(TypeError);
      }
      if |column| != numberOfParticles {
        return Some(ValueError);
      }
      if |column| == 0 {
        return Some(IndexError);
      }
      if column[0].Int? {
        return Some(TypeError);
      }
      if |column[0].text| != 1 {
        return Some(ValueError);
      }
      var newColumnNumber := Dicts.Len(headers) + Dicts.Len(newDataHeaders) - 1;
      newDataHeaders := Dicts.Put(newDataHeaders, name, newColumnNumber);
      particleDataBlock := particleDataBlock + [Column(column, true)];
      err := None;
    }

    /** addEmptyDataColumn: a name already in new_data_headers is a
        ValueError and changes nothing; otherwise it is recorded under
        len(headers) + len(new_data_headers) and a list of number_of_particles
        zeros is appended. */
    method AddEmptyDataColumn(name: string) returns (err: Option<PyError>)
      requires Valid()
      modifies this`newDataHeaders, this`particleDataBlock
      ensures Valid()
      ensures err.Some? <==> name in old(newDataHeaders).vals
      ensures err.Some? ==> err.value == ValueError && newDataHeaders == old(newDataHeaders) && particleDataBlock == old(particleDataBlock)
      ensures err.None? ==> newDataHeaders == Dicts.Put(old(newDataHeaders), name, Dicts.Len(headers) + Dicts.Len(old(newDataHeaders)))
      ensures err.None? ==> particleDataBlock == old(particleDataBlock) + [Column(Zeros(numberOfParticles), true)]
    {
      var newColumnNumber := Dicts.Len(headers) + Dicts.Len(newDataHeaders);
      if name in newDataHeaders.vals {
        return Some(ValueError);
      }
      newDataHeaders := Dicts.Put(newDataHeaders, name, newColumnNumber);
      particleDataBlock := particleDataBlock + [Column(Zeros(numberOfParticles), true)];
      err := None;
    }

    /** updateParticleDataNewHeader: cell p of the column new_data_headers
        names for h. */
    method UpdateParticleDataNewHeader(p: int, h: string, v: Value) returns (err: Option<PyError>)
      modifies this`particleDataBlock
      ensures var u := CellUpdate(old(particleDataBlock), newDataHeaders, h, p, v);
              && (u.Err? ==> err == Some(u.error) && particleDataBlock == old(particleDataBlock))
              && (u.Ok? ==> err == None && particleDataBlock == u.value)
    {
      var u := CellUpdate(particleDataBlock, newDataHeaders, h, p, v);
      if u.Err? {
        return Some(u.error);
      }
      particleDataBlock := u.value;
      err := None;
    }

    /** updateParticleData: cell p of the column headers names for h. */
    method UpdateParticleData(p: int, h: string, v: Value) returns (err: Option<PyError>)
      modifies this`particleDataBlock
      ensures var u := CellUpdate(old(particleDataBlock), headers, h, p, v);
              && (u.Err? ==> err == Some(u.error) && particleDataBlock == old(particleDataBlock))
              && (u.Ok? ==> err == None && particleDataBlock == u.value)
    {
      var u := CellUpdate(particleDataBlock, headers, h, p, v);
      if u.Err? {
        return Some(u.error);
      }
      particleDataBlock := u.value;
      err := None;
    }

    /** getParticlePositionsBasedOnMetaData: the positions, in ascending
        order, of the cells of h's column equal to the value. */
    function GetParticlePositionsBasedOnMetaData(h: string, value: Value): (r: Result<seq<nat>>)
      reads this
      ensures r.Ok? <==> h in headers.vals && -|particleDataBlock| <= headers.vals[h] < |particleDataBlock|
      ensures r.Err? ==> r.error == if h !in headers.vals then KeyError(h) else IndexError
      ensures r.Ok? ==> var cells := particleDataBlock[PyIndex(|particleDataBlock|, headers.vals[h]).value].cells;
                        forall i :: i in r.value <==> 0 <= i < |cells| && cells[i] == value
    {
      var c :- Dicts.Get(headers, h);
      var column :- PyGet(particleDataBlock, c);
      Ok(Positions(column.cells, value))
    }

    /** updateColumnsWithNewData: for each key of new_data_headers in turn,
        the column headers names for it is replaced by the column
        new_data_headers names for it; the first failing key ends the loop
        with the earlier keys' columns already copied. */
    method UpdateColumnsWithNewData() returns (err: Option<PyError>)
      requires Valid()
      modifies this`particleDataBlock
      ensures (particleDataBlock, err) == CopyColumns(old(particleDataBlock), headers, newDataHeaders, newDataHeaders.keys)
    {
      particleDataBlock, err := CopyEach(particleDataBlock, headers, newDataHeaders);
    }

    /** selectAngularRange: the particles whose angle in column h passes the
        test are stored in `paticles`, the data block becomes their columns
        and a name for the range is recorded under column 0; number_of_particles
        and `particles` are left as they were. */
    method SelectAngularRange(h: string, lo: int, hi: int, num: string -> Option<real>) returns (err: Option<PyError>)
      requires Valid()
      modifies this`paticles, this`particleDataBlock, this`newDataHeaders
      ensures Valid()
      ensures var sel := Selection(old(particleDataBlock), headers, particles, numberOfParticles, h, num, lo, hi);
              && (sel.Err? ==> err == Some(sel.error) && paticles == old(paticles) &&
                               particleDataBlock == old(particleDataBlock) && newDataHeaders == old(newDataHeaders))
              && (sel.Ok? ==> err == None && paticles == Some(sel.value) && particleDataBlock == TupleColumns(sel.value) &&
                              newDataHeaders == Dicts.Put(old(newDataHeaders), RangeName(h, lo, hi), 0))
    {
      var c := Dicts.Get(headers, h);
      if c.Err? {
        return Some(c.error);
      }
      var column := PyGet(particleDataBlock, c.value);
      if column.Err? {
        return Some(column.error);
      }
      var kept := SelectLoop(particles, column.value.cells, num, lo, hi, numberOfParticles);
      if kept.Err? {
        return Some(kept.error);
      }
      if kept.value == [] {
        return Some(NameError);
      }
      paticles := Some(kept.value);
      particleDataBlock := TupleColumns(kept.value);
      newDataHeaders := Dicts.Put(newDataHeaders, RangeName(h, lo, hi), 0);
      err := None;
    }

    /** writeBlockDatatoStar: the file name and lines written, or the error
        raised on the way. With save_new_data the names of new_data_headers
        are first pointed at their columns; with save_updated_data they are
        pointed there again, after the declarations are ordered, and the
        headers stay so whether or not the writing then fails. */
    method WriteBlockDatatoStar(saveUpdated: bool, saveNew: bool) returns (r: Result<Written>)
      requires Valid()
      modifies this`headers
      ensures Valid()
      ensures r == BlockWriteSpec(filename, old(headers), newDataHeaders, opticsInfo, starComments, particleDataBlock, saveUpdated, saveNew)
      ensures var hd1 := NewHeaders(old(headers), newDataHeaders, saveNew);
              headers == if hd1.keys == [] then hd1 else SavedHeaders(hd1, newDataHeaders, saveUpdated)
    {
      RepointNew(saveNew);
      ghost var hd1 := headers;
      var ordered := OrderedHeaders(headers);
      if ordered.Err? {
        BlockWriteUnordered(filename, old(headers), newDataHeaders, opticsInfo, starComments, particleDataBlock, saveUpdated, saveNew);
        return Err(ordered.error);
      }
      var names := ordered.value;
      var saveName := RedirectColumns(saveUpdated);
      var head := WriteHeader(opticsInfo, starComments, names, "_data_particles");
      var cols := GatherColumns(particleDataBlock, headers, names);
      r := BlockWritten(saveName + ".star", head, cols);
      BlockWriteSteps(filename, old(headers), newDataHeaders, opticsInfo, starComments, particleDataBlock, saveUpdated, saveNew,
                      names, headers, head, cols, r);
    }

    /** The first loop of writeBlockDatatoStar: with save_new_data each name
        of new_data_headers is pointed at its column. */
    method RepointNew(saveNew: bool)
      requires Valid()
      modifies this`headers
      ensures Valid()
      ensures headers == NewHeaders(old(headers), newDataHeaders, saveNew)
    {
      if saveNew {
        headers := Repoint(headers, newDataHeaders);
      }
    }

    /** The loop over new_data_headers after the declarations are ordered:
        when the edited columns are saved, each edited name is pointed at
        its column and appended to the file name. */
    method RedirectColumns(saveUpdated: bool) returns (saveName: string)
      requires Valid()
      modifies this`headers
      ensures Valid()
      ensures headers == SavedHeaders(old(headers), newDataHeaders, saveUpdated)
      ensures saveName + ".star" == SaveName(filename, newDataHeaders, saveUpdated)
    {
      saveName := SaveStem(filename);
      if saveUpdated && |newDataHeaders.keys| > 0 {
        var redirected, suffix := Redirect(headers, newDataHeaders);
        headers := redirected;
        saveName := saveName + suffix;
      }
    }
  }
}
