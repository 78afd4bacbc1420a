/** The line-by-line reading both STAR readers share: blank lines are dropped,
    every line is stripped, and each line is classified by a small state
    machine driven by the `optics` flag. */
module StarScan {
  import opened Errors
  import opened PyText
  import opened Dicts
  import opened Seqs

  /** Which reader is scanning: the block reader also resets the optics flag
      on a bare `data_` line and does not look up micrograph names. */
  datatype Variant = FilamentReader | BlockReader

  /** `[i.strip() for i in starfile if len(i.strip()) != 0]` */
  function CleanLines(raw: seq<string>): (lines: seq<string>)
    ensures |lines| <= |raw|
    ensures forall k :: 0 <= k < |lines| ==> lines[k] != [] && Stripped(lines[k])
  {
    if raw == [] then []
    else
      var t := Strip(raw[0]);
      if t == [] then CleanLines(raw[1..]) else [t] + CleanLines(raw[1..])
  }

  predicate NonBlank(lines: seq<string>)
  {
    forall k :: 0 <= k < |lines| ==> lines[k] != []
  }

  /** A file whose lines are already stripped and non-blank is read as it is. */
  lemma {:induction false} CleanLinesOfClean(lines: seq<string>)
    requires forall k :: 0 <= k < |lines| ==> lines[k] != [] && Stripped(lines[k])
    ensures CleanLines(lines) == lines
  {
    if lines != [] {
      CleanLinesOfClean(lines[1..]);
      assert lines == [lines[0]] + lines[1..];
    }
  }

  lemma {:induction false} CleanLinesAppend(a: seq<string>, b: seq<string>)
    ensures CleanLines(a + b) == CleanLines(a) + CleanLines(b)
  {
    if a != [] {
      DropAppend(a, b);
      CleanLinesAppend(a[1..], b);
      assert (a + b)[0] == a[0];
      AppendAssoc([Strip(a[0])], CleanLines(a[1..]), CleanLines(b));
    } else {
      assert a + b == b;
    }
  }

  /** The branch of the reader's if/elif chain a line takes. */
  datatype LineKind =
    | Comment
    | OpticsStart
    | ParticlesStart
    | BlockReset
    | OpticsLine
    | LoopMarker
    | ColumnDecl(name: string, index: int)
    | DataRow(tokens: seq<string>)

  /** Classifies one stripped, non-blank line. A line starting with `_` is a
      column declaration `_name #N`: the name is the first field without its
      first character, and the index is int() of the second field without its
      first character, minus one; a missing second field is an IndexError and
      a malformed number a ValueError. */
  function Classify(line: string, optics: bool, v: Variant): (r: Result<LineKind>)
    requires line != []
    ensures r.Ok? && r.value.ColumnDecl? ==> line[0] == '_' && !optics
    ensures r.Ok? && r.value.DataRow? ==> r.value.tokens == Split(line) && !optics && line[0] != '#' && line[0] != '_'
    ensures r.Err? ==> line[0] == '_' && !optics
  {
    if line[0] == '#' then Ok(Comment)
    else if line == "data_optics" then Ok(OpticsStart)
    else if line == "data_particles" then Ok(ParticlesStart)
    else if v == BlockReader && line == "data_" then Ok(BlockReset)
    else if optics then Ok(OpticsLine)
    else if line == "loop_" then Ok(LoopMarker)
    else if line[0] == '_' then DeclOf(Split(line))
    else Ok(DataRow(Split(line)))
  }

  /** A column declaration `_name #n` split into fields: the name loses its
      leading `_`, the number loses its first character and is parsed with
      `int()`, and the column index is one less. A single field is an
      IndexError, a number `int()` refuses a ValueError. */
  function DeclOf(fields: seq<string>): (r: Result<LineKind>)
    requires forall i :: 0 <= i < |fields| ==> fields[i] != []
    ensures r.Ok? ==> r.value.ColumnDecl? && |fields| >= 2
    ensures r.Ok? ==> r.value.name == fields[0][1..] && ParseInt(fields[1][1..]) == Some(r.value.index + 1)
    ensures r.Err? <==> |fields| < 2 || ParseInt(fields[1][1..]).None?
    ensures r.Err? ==> r.error == (if |fields| < 2 then IndexError else ValueError)
  {
    if |fields| < 2 then Err(IndexError)
    else
      match ParseInt(fields[1][1..])
      case None => Err(ValueError)
      case Some(n) => Ok(ColumnDecl(fields[0][1..], n - 1))
  }

  /** What the reader has gathered so far: its optics flag, the comment lines,
      the optics block, the column map (name to 0-based index), the data rows
      as fields and, for the filament reader, each row's micrograph name. */
  datatype Scan = Scan(
    optics: bool,
    comments: seq<string>,
    opticsInfo: seq<string>,
    headers: Dict<int>,
    rows: seq<seq<string>>,
    micrographs: seq<string>)

  function InitialScan(): (st: Scan)
    ensures Valid(st.headers) && !st.optics
  {
    Scan(false, [], [], Empty(), [], [])
  }

  /** The body of the reader's line loop for one line. The filament reader
      files each data row under `row[headers['rlnMicrographName']]`, with a
      KeyError when that column is not declared (yet) and an IndexError when
      the row is too short. */
  function Step(st: Scan, line: string, v: Variant): (r: Result<Scan>)
    requires line != [] && Valid(st.headers)
    ensures r.Ok? ==> Valid(r.value.headers)
    ensures r.Ok? && v == FilamentReader && |st.micrographs| == |st.rows| ==>
              |r.value.micrographs| == |r.value.rows|
  {
    var kind :- Classify(line, st.optics, v);
    Apply(st, line, kind, v)
  }

  /** What one classified line does to the reader's state. */
  function Apply(st: Scan, line: string, kind: LineKind, v: Variant): (r: Result<Scan>)
    requires Valid(st.headers)
    ensures r.Ok? ==> Valid(r.value.headers)
    ensures r.Ok? && v == FilamentReader && |st.micrographs| == |st.rows| ==>
              |r.value.micrographs| == |r.value.rows|
  {
    match kind
    case Comment => Ok(st.(comments := st.comments + [line]))
    case OpticsStart => Ok(st.(optics := true, opticsInfo := st.opticsInfo + [line]))
    case ParticlesStart => Ok(st.(optics := false))
    case BlockReset => Ok(st.(optics := false))
    case OpticsLine => Ok(st.(opticsInfo := st.opticsInfo + [line]))
    case LoopMarker => Ok(st)
    case ColumnDecl(name, index) => Ok(st.(headers := Put(st.headers, name, index)))
    case DataRow(fields) =>
      if v == BlockReader then Ok(st.(rows := st.rows + [fields]))
      else
        var col :- Get(st.headers, "rlnMicrographName");
        var mic :- PyGet(fields, col);
        Ok(st.(rows := st.rows + [fields], micrographs := st.micrographs + [mic]))
  }

  /** The whole line loop from state st; the first failing line decides the error. */
  function ScanFrom(st: Scan, lines: seq<string>, v: Variant): (r: Result<Scan>)
    requires NonBlank(lines) && Valid(st.headers)
    ensures r.Ok? ==> Valid(r.value.headers)
    ensures r.Ok? && v == FilamentReader && |st.micrographs| == |st.rows| ==>
              |r.value.micrographs| == |r.value.rows|
    decreases |lines|
  {
    if lines == [] then Ok(st)
    else
      match Step(st, lines[0], v)
      case Err(e) => Err(e)
      case Ok(next) => ScanFrom(next, lines[1..], v)
  }

  function ScanAll(lines: seq<string>, v: Variant): (r: Result<Scan>)
    requires NonBlank(lines)
    ensures r.Ok? ==> Valid(r.value.headers)
    ensures r.Ok? && v == FilamentReader ==> |r.value.micrographs| == |r.value.rows|
  {
    ScanFrom(InitialScan(), lines, v)
  }

  lemma ScanFromAppend(st: Scan, a: seq<string>, b: seq<string>, v: Variant)
    requires NonBlank(a) && NonBlank(b) && Valid(st.headers)
    ensures NonBlank(a + b)
    ensures ScanFrom(st, a + b, v) ==
            match ScanFrom(st, a, v)
            case Err(e) => Err(e)
            case Ok(mid) => ScanFrom(mid, b, v)
    decreases |a|
  {
    if a != [] {
      assert (a + b)[1..] == a[1..] + b;
      match Step(st, a[0], v)
      case Err(e) =>
      case Ok(next) => ScanFromAppend(next, a[1..], b, v);
    } else {
      assert a + b == b;
    }
  }

  /** The first line decides whether the rest is scanned. */
  lemma ScanFromFirst(st: Scan, lines: seq<string>, v: Variant)
    requires NonBlank(lines) && Valid(st.headers) && lines != []
    ensures var first := Step(st, lines[0], v);
            && (first.Err? ==> ScanFrom(st, lines, v) == Err(first.error))
            && (first.Ok? ==> ScanFrom(st, lines, v) == ScanFrom(first.value, lines[1..], v))
  {
  }

  /** One more line of a loop that has succeeded so far. */
  lemma ScanStep(st: Scan, lines: seq<string>, i: nat, mid: Scan, v: Variant)
    requires NonBlank(lines) && Valid(st.headers) && i < |lines|
    requires ScanFrom(st, lines[..i], v) == Ok(mid)
    ensures Valid(mid.headers)
    ensures ScanFrom(st, lines[..i + 1], v) == Step(mid, lines[i], v)
  {
    TakeNext(lines, i);
    ScanSnoc(st, lines[..i], lines[i], mid, v);
  }

  /** A line after lines that scanned to mid is one step from mid. */
  lemma ScanSnoc(st: Scan, done: seq<string>, line: string, mid: Scan, v: Variant)
    requires NonBlank(done) && line != [] && Valid(st.headers)
    requires ScanFrom(st, done, v) == Ok(mid)
    ensures NonBlank(done + [line]) && Valid(mid.headers)
    ensures ScanFrom(st, done + [line], v) == Step(mid, line, v)
  {
    ScanFromAppend(st, done, [line], v);
    ScanFromOne(mid, line, v);
  }

  /** A single line is a single step. */
  lemma ScanFromOne(st: Scan, line: string, v: Variant)
    requires line != [] && Valid(st.headers)
    ensures ScanFrom(st, [line], v) == Step(st, line, v)
  {
    ScanFromFirst(st, [line], v);
    assert [line][0] == line && [line][1..] == [];
    var first := Step(st, line, v);
    if first.Ok? {
      assert ScanFrom(first.value, [], v) == first;
    }
  }

  /** The first failing line ends the whole loop with its error. */
  lemma ScanStopsAt(st: Scan, lines: seq<string>, i: nat, mid: Scan, v: Variant)
    requires NonBlank(lines) && Valid(st.headers) && i < |lines|
    requires ScanFrom(st, lines[..i], v) == Ok(mid)
    ensures Valid(mid.headers)
    ensures Step(mid, lines[i], v).Err? ==> ScanFrom(st, lines, v) == Err(Step(mid, lines[i], v).error)
  {
    TakeDrop(lines, i);
    ScanFromAppend(st, lines[..i], lines[i..], v);
    ScanFromFirst(mid, lines[i..], v);
  }

  /** The comment lines, in file order. */
  function CommentLines(lines: seq<string>): seq<string>
    requires NonBlank(lines)
  {
    if lines == [] then []
    else (if lines[0][0] == '#' then [lines[0]] else []) + CommentLines(lines[1..])
  }

  lemma StepComments(st: Scan, line: string, v: Variant)
    requires line != [] && Valid(st.headers)
    requires Step(st, line, v).Ok?
    ensures Step(st, line, v).value.comments == st.comments + (if line[0] == '#' then [line] else [])
  {
    var kind := Classify(line, st.optics, v).value;
    assert kind == Comment <==> line[0] == '#';
    ApplyComments(st, line, kind, v);
  }

  lemma ApplyComments(st: Scan, line: string, kind: LineKind, v: Variant)
    requires Valid(st.headers) && Apply(st, line, kind, v).Ok?
    ensures Apply(st, line, kind, v).value.comments == st.comments + (if kind == Comment then [line] else [])
  {
  }

  /** Every line starting with `#` is appended to star_comments, in order, and
      nothing else is. */
  lemma {:induction false} ScanCollectsComments(st: Scan, lines: seq<string>, v: Variant)
    requires NonBlank(lines) && Valid(st.headers)
    requires ScanFrom(st, lines, v).Ok?
    ensures ScanFrom(st, lines, v).value.comments == st.comments + CommentLines(lines)
    decreases |lines|
  {
    if lines != [] {
      var next := Step(st, lines[0], v).value;
      StepComments(st, lines[0], v);
      ScanCollectsComments(next, lines[1..], v);
      assert ScanFrom(st, lines, v) == ScanFrom(next, lines[1..], v);
      AppendAssoc(st.comments, if lines[0][0] == '#' then [lines[0]] else [], CommentLines(lines[1..]));
    } else {
      AppendEmpty(st.comments, CommentLines(lines));
    }
  }

  /** A line of an optics block body: no comment and no block marker. */
  predicate OpticsBody(line: string, v: Variant)
  {
    && line != [] && line[0] != '#'
    && line != "data_optics" && line != "data_particles"
    && (v == BlockReader ==> line != "data_")
  }

  /** `data_optics`, then lines that are neither comments nor block markers,
      then `data_particles`: the first line and the body are kept verbatim in
      optics_info, and the reader leaves optics mode with nothing else changed. */
  lemma {:induction false} ScanOpticsBlock(st: Scan, body: seq<string>, rest: seq<string>, v: Variant)
    requires Valid(st.headers) && NonBlank(rest)
    requires forall k :: 0 <= k < |body| ==> OpticsBody(body[k], v)
    ensures NonBlank(["data_optics"] + body + ["data_particles"] + rest)
    ensures ScanFrom(st, ["data_optics"] + body + ["data_particles"] + rest, v) ==
            ScanFrom(st.(optics := false, opticsInfo := st.opticsInfo + ["data_optics"] + body), rest, v)
  {
    var start := st.(optics := true, opticsInfo := st.opticsInfo + ["data_optics"]);
    assert Step(st, "data_optics", v) == Ok(start);
    var lines := ["data_optics"] + body + ["data_particles"] + rest;
    assert lines[1..] == body + (["data_particles"] + rest);
    ScanOpticsBody(start, body, ["data_particles"] + rest, v);
    var after := start.(opticsInfo := start.opticsInfo + body);
    assert Step(after, "data_particles", v) == Ok(after.(optics := false));
    assert (["data_particles"] + rest)[1..] == rest;
    assert st.opticsInfo + ["data_optics"] + body == start.opticsInfo + body;
  }

  lemma {:induction false} ScanOpticsBody(st: Scan, body: seq<string>, rest: seq<string>, v: Variant)
    requires Valid(st.headers) && NonBlank(rest) && st.optics
    requires forall k :: 0 <= k < |body| ==> OpticsBody(body[k], v)
    ensures NonBlank(body + rest)
    ensures ScanFrom(st, body + rest, v) == ScanFrom(st.(opticsInfo := st.opticsInfo + body), rest, v)
    decreases |body|
  {
    if body == [] {
      assert body + rest == rest;
      assert st.opticsInfo + body == st.opticsInfo;
    } else {
      var next := st.(opticsInfo := st.opticsInfo + [body[0]]);
      assert Step(st, body[0], v) == Ok(next);
      DropAppend(body, rest);
      assert (body + rest)[0] == body[0];
      ScanOpticsBody(next, body[1..], rest, v);
      ConsAppend(st.opticsInfo, body);
    }
  }

  /** `_name #N` outside an optics block sets headers[name] = N - 1. */
  function DeclLine(name: string, n: int): string
  {
    "_" + name + " #" + IntToStr(n)
  }

  lemma DeclLineFields(name: string, n: int)
    requires NoSpace(name)
    ensures Split(DeclLine(name, n)) == ["_" + name, "#" + IntToStr(n)]
  {
    var first := "_" + name;
    var second := "#" + IntToStr(n);
    assert NoSpace(first) by {
      assert !IsSpace('_');
    }
    assert NoSpace(second) by {
      assert !IsSpace('#');
    }
    assert DeclLine(name, n) == first + ([' '] + second);
    SplitTwo(first, second);
  }

  lemma ScanDeclLine(st: Scan, name: string, n: int, v: Variant)
    requires Valid(st.headers) && !st.optics && NoSpace(name)
    ensures DeclLine(name, n) != []
    ensures Step(st, DeclLine(name, n), v) == Ok(st.(headers := Put(st.headers, name, n - 1)))
  {
    ClassifyDeclLine(name, n, v);
    ApplyDecl(st, DeclLine(name, n), name, n - 1, v);
  }

  lemma ApplyDecl(st: Scan, line: string, name: string, index: int, v: Variant)
    requires Valid(st.headers)
    ensures Apply(st, line, ColumnDecl(name, index), v) == Ok(st.(headers := Put(st.headers, name, index)))
  {
  }

  /** A line starting with `_` that is none of the reserved words is parsed
      as a column declaration, inside or outside a data block. */
  lemma ClassifyUnderscore(line: string, v: Variant)
    requires line != [] && line[0] == '_'
    ensures Classify(line, false, v) == DeclOf(Split(line))
  {
    assert line != "data_optics" && line != "data_particles" && line != "data_" && line != "loop_" by {
      assert "data_optics"[0] != '_' && "data_particles"[0] != '_' && "data_"[0] != '_' && "loop_"[0] != '_';
    }
  }

  /** The declaration the writers emit for `name` at 1-based number n is read
      back as column name with 0-based index n - 1. */
  lemma ClassifyDeclLine(name: string, n: int, v: Variant)
    requires NoSpace(name)
    ensures DeclLine(name, n) != []
    ensures Classify(DeclLine(name, n), false, v) == Ok(ColumnDecl(name, n - 1))
  {
    var line := DeclLine(name, n);
    assert line[0] == '_';
    ClassifyUnderscore(line, v);
    DeclLineFields(name, n);
    DeclOfFields(name, n);
  }

  lemma DeclOfFields(name: string, n: int)
    ensures DeclOf(["_" + name, "#" + IntToStr(n)]) == Ok(ColumnDecl(name, n - 1))
  {
    var fields := ["_" + name, "#" + IntToStr(n)];
    assert fields[1][1..] == IntToStr(n);
    ParseIntToStr(n);
    assert fields[0][1..] == name;
  }

  /** The header block the writers emit, `_name #k` for k = first, first+1, ... */
  function DeclLines(names: seq<string>, first: int): (lines: seq<string>)
    ensures |lines| == |names|
    ensures NonBlank(lines)
  {
    if names == [] then [] else [DeclLine(names[0], first)] + DeclLines(names[1..], first + 1)
  }

  /** headers after putting names[i] = first - 1 + i in turn. */
  function PutAll(d: Dict<int>, names: seq<string>, first: int): (r: Dict<int>)
    requires Valid(d)
    ensures Valid(r)
    decreases |names|
  {
    if names == [] then d else PutAll(Put(d, names[0], first - 1), names[1..], first + 1)
  }

  /** Reading a header block numbered from `first` declares names[i] at index
      first - 1 + i, in order. */
  lemma {:induction false} ScanDeclLines(st: Scan, names: seq<string>, first: int, v: Variant)
    requires Valid(st.headers) && !st.optics
    requires forall k :: 0 <= k < |names| ==> NoSpace(names[k])
    ensures ScanFrom(st, DeclLines(names, first), v) == Ok(st.(headers := PutAll(st.headers, names, first)))
    decreases |names|
  {
    if names != [] {
      ScanDeclLine(st, names[0], first, v);
      var next := st.(headers := Put(st.headers, names[0], first - 1));
      assert DeclLines(names, first)[1..] == DeclLines(names[1..], first + 1);
      ScanDeclLines(next, names[1..], first + 1, v);
    }
  }

  /** Declaring fresh distinct names appends them to the key order. */
  lemma {:induction false} PutAllKeys(d: Dict<int>, names: seq<string>, first: int)
    requires Valid(d) && Distinct(names)
    requires forall k :: 0 <= k < |names| ==> names[k] !in d.vals
    ensures PutAll(d, names, first).keys == d.keys + names
    decreases |names|
  {
    if names != [] {
      var d' := Put(d, names[0], first - 1);
      assert d'.keys == d.keys + [names[0]];
      FreshTail(d, names, first);
      PutAllKeys(d', names[1..], first + 1);
      assert PutAll(d, names, first) == PutAll(d', names[1..], first + 1);
      ConsAppend(d.keys, names);
    } else {
      AppendEmpty(d.keys, names);
    }
  }

  /** After declaring names[0], the other names are still fresh. */
  lemma FreshTail(d: Dict<int>, names: seq<string>, first: int)
    requires Valid(d) && Distinct(names) && names != []
    requires forall k :: 0 <= k < |names| ==> names[k] !in d.vals
    ensures Distinct(names[1..])
    ensures forall k :: 0 <= k < |names[1..]| ==> names[1..][k] !in Put(d, names[0], first - 1).vals
  {
    forall k | 0 <= k < |names[1..]| ensures names[1..][k] !in Put(d, names[0], first - 1).vals {
      assert names[1..][k] == names[k + 1] != names[0];
    }
  }

  /** Declaring fresh distinct names numbers them first - 1, first, ... */
  lemma {:induction false} PutAllValues(d: Dict<int>, names: seq<string>, first: int)
    requires Valid(d) && Distinct(names)
    requires forall k :: 0 <= k < |names| ==> names[k] !in d.vals
    ensures forall k :: 0 <= k < |names| ==> names[k] in PutAll(d, names, first).vals && PutAll(d, names, first).vals[names[k]] == first - 1 + k
    decreases |names|
  {
    if names != [] {
      var d' := Put(d, names[0], first - 1);
      FreshTail(d, names, first);
      PutAllValues(d', names[1..], first + 1);
      PutAllKeeps(d', names[1..], first + 1);
      var r := PutAll(d, names, first);
      forall k | 0 <= k < |names| ensures names[k] in r.vals && r.vals[names[k]] == first - 1 + k {
        if k > 0 {
          assert names[k] == names[1..][k - 1];
        } else {
          assert names[0] in d'.vals;
        }
      }
    }
  }

  /** Declaring fresh names leaves the earlier columns where they were. */
  lemma {:induction false} PutAllKeeps(d: Dict<int>, names: seq<string>, first: int)
    requires Valid(d) && Distinct(names)
    requires forall k :: 0 <= k < |names| ==> names[k] !in d.vals
    ensures forall x :: x in d.vals ==> x in PutAll(d, names, first).vals && PutAll(d, names, first).vals[x] == d.vals[x]
    decreases |names|
  {
    if names != [] {
      FreshTail(d, names, first);
      PutAllKeeps(Put(d, names[0], first - 1), names[1..], first + 1);
    }
  }

  /** `loop_` outside an optics block changes nothing. */
  lemma ScanLoopMarker(st: Scan, v: Variant)
    requires Valid(st.headers) && !st.optics
    ensures Step(st, "loop_", v) == Ok(st)
  {
    assert Classify("loop_", st.optics, v) == Ok(LoopMarker) by {
      assert "loop_"[0] != '#';
      assert "loop_" != "data_optics" && "loop_" != "data_particles" && "loop_" != "data_";
    }
  }

  /** `data_particles` ends an optics block and changes nothing else. */
  lemma StepParticles(st: Scan, v: Variant)
    requires Valid(st.headers)
    ensures Step(st, "data_particles", v) == Ok(st.(optics := false))
  {
    assert Classify("data_particles", st.optics, v) == Ok(ParticlesStart) by {
      assert "data_particles"[0] != '#';
      assert "data_particles" != "data_optics";
    }
  }

  /** `data_optics` starts an optics block, kept from its first line on. */
  lemma StepOpticsStart(st: Scan, v: Variant)
    requires Valid(st.headers)
    ensures Step(st, "data_optics", v) == Ok(st.(optics := true, opticsInfo := st.opticsInfo + ["data_optics"]))
  {
    assert Classify("data_optics", st.optics, v) == Ok(OpticsStart) by {
      assert "data_optics"[0] != '#';
    }
  }

  /** A comment is collected wherever it appears. */
  lemma StepComment(st: Scan, c: string, v: Variant)
    requires Valid(st.headers) && c != [] && c[0] == '#'
    ensures Step(st, c, v) == Ok(st.(comments := st.comments + [c]))
  {
    assert Classify(c, st.optics, v) == Ok(Comment);
  }

  /** A blank line is dropped. */
  lemma CleanBlank(rest: seq<string>)
    ensures CleanLines([""] + rest) == CleanLines(rest)
  {
    assert ([""] + rest)[1..] == rest;
    assert Stripped("");
  }

  /** A line without surrounding whitespace is kept as it is. */
  lemma CleanKept(x: string, rest: seq<string>)
    requires x != [] && Stripped(x)
    ensures CleanLines([x] + rest) == [x] + CleanLines(rest)
  {
    assert ([x] + rest)[1..] == rest;
  }

  /** A line padded with one space on each side is kept without them. */
  lemma CleanPadded(x: string, rest: seq<string>)
    requires x != [] && Stripped(x)
    ensures CleanLines([" " + x + " "] + rest) == [x] + CleanLines(rest)
  {
    assert ([" " + x + " "] + rest)[1..] == rest;
    StripPadded(x);
  }
}
