/** What the two STAR writers have in common: the output file name, the order
    in which the columns are declared, the lines written before the column
    declarations, and the shape of a data row. A written file is modelled as
    its list of lines, each of which the writer ends with a newline. */
module StarWrite {
  import opened Errors
  import opened PyText
  import opened Dicts
  import opened Seqs
  import opened Sorting
  import opened StarScan
  import opened Pivot

  /** The name of the file a writer creates and the lines it writes there. */
  datatype Written = Written(name: string, lines: seq<string>)

  /** self.filename[:-5] + '_updated': the last five characters are dropped,
      all of them when the name is shorter. */
  function SaveStem(filename: string): (stem: string)
    ensures |stem| == (if |filename| >= 5 then |filename| - 5 else 0) + 8
  {
    (if |filename| >= 5 then filename[..|filename| - 5] else "") + "_updated"
  }

  /** The `.star` extension is what the slice drops. */
  lemma StemOfStarFile(base: string)
    ensures SaveStem(base + ".star") == base + "_updated"
  {
    assert (base + ".star")[..|base|] == base;
  }

  /** The first n keys of a dict, concatenated: what `save_file_name + key`
      appends over the first n iterations of the key loop. */
  function Joined(keys: seq<string>, n: nat): (s: string)
    requires n <= |keys|
  {
    if n == 0 then "" else Joined(keys, n - 1) + keys[n - 1]
  }

  /** d after `d[key] = e[key]` for each key of ks in turn. */
  function Overlay(d: Dict<int>, e: Dict<int>, ks: seq<string>): (r: Dict<int>)
    requires Valid(d) && forall k :: k in ks ==> k in e.vals
    ensures Valid(r)
    decreases |ks|
  {
    if ks == [] then d
    else
      var last := ks[|ks| - 1];
      Put(Overlay(d, e, ks[..|ks| - 1]), last, e.vals[last])
  }

  /** One more key: its value from e is put last. */
  lemma OverlaySnoc(d: Dict<int>, e: Dict<int>, ks: seq<string>, i: nat)
    requires Valid(d) && forall k :: k in ks ==> k in e.vals
    requires i < |ks|
    ensures Overlay(d, e, ks[..i + 1]) == Put(Overlay(d, e, ks[..i]), ks[i], e.vals[ks[i]])
  {
    assert ks[..i + 1][..i] == ks[..i];
  }

  /** Overwriting keeps the columns already declared in their places. */
  lemma {:induction false} OverlayKeys(d: Dict<int>, e: Dict<int>, ks: seq<string>)
    requires Valid(d) && forall k :: k in ks ==> k in e.vals
    ensures |d.keys| <= |Overlay(d, e, ks).keys| && Overlay(d, e, ks).keys[..|d.keys|] == d.keys
    decreases |ks|
  {
    if ks != [] {
      var init := ks[..|ks| - 1];
      OverlayKeys(d, e, init);
      var prev := Overlay(d, e, init);
      var last := ks[|ks| - 1];
      var r := Overlay(d, e, ks);
      assert r == Put(prev, last, e.vals[last]);
      assert r.keys[..|prev.keys|] == prev.keys;
      assert r.keys[..|d.keys|] == prev.keys[..|d.keys|];
    }
  }

  /** Overwriting gives every overwritten name the number e has for it and
      leaves the other names as they were. */
  lemma {:induction false} OverlayValues(d: Dict<int>, e: Dict<int>, ks: seq<string>)
    requires Valid(d) && forall k :: k in ks ==> k in e.vals
    ensures forall k :: k in Overlay(d, e, ks).vals <==> k in d.vals || k in ks
    ensures forall k :: k in Overlay(d, e, ks).vals ==> Overlay(d, e, ks).vals[k] == if k in ks then e.vals[k] else d.vals[k]
    decreases |ks|
  {
    if ks != [] {
      var init := ks[..|ks| - 1];
      var last := ks[|ks| - 1];
      OverlayValues(d, e, init);
      assert ks == init + [last];
      var prev := Overlay(d, e, init);
      PutOver(d, e, init, last, prev, Overlay(d, e, ks));
    }
  }

  /** The step of OverlayValues, over the dicts as plain values. */
  lemma PutOver(d: Dict<int>, e: Dict<int>, init: seq<string>, last: string, prev: Dict<int>, r: Dict<int>)
    requires Valid(prev) && last in e.vals && (forall k :: k in init ==> k in e.vals) && r == Put(prev, last, e.vals[last])
    requires forall k :: k in prev.vals <==> k in d.vals || k in init
    requires forall k :: k in prev.vals ==> prev.vals[k] == if k in init then e.vals[k] else d.vals[k]
    ensures forall k :: k in r.vals <==> k in d.vals || k in init + [last]
    ensures forall k :: k in r.vals ==> r.vals[k] == if k in init + [last] then e.vals[k] else d.vals[k]
  {
    SnocMembers(init, last);
  }


  /** The column numbers as the sort keys of `sort(key = lambda x: x[0])`,
      in the dict's key order. */
  function IndexKeys(hd: Dict<int>): (keys: seq<real>)
    requires Valid(hd)
    ensures |keys| == |hd.keys|
    ensures forall i :: 0 <= i < |hd.keys| ==> hd.keys[i] in hd.vals && keys[i] == hd.vals[hd.keys[i]] as real
  {
    seq(|hd.keys|, i requires 0 <= i < |hd.keys| => if hd.keys[i] in hd.vals then hd.vals[hd.keys[i]] as real else 0.0)
  }

  /** Every column name exactly once. */
  ghost predicate EachColumnOnce(hd: Dict<int>, names: seq<string>)
  {
    |names| == |hd.keys| && Distinct(names) && forall x :: x in names <==> x in hd.vals
  }

  /** Names in ascending column number; names sharing a number in the dict's
      key order. */
  predicate ByColumnNumber(hd: Dict<int>, names: seq<string>)
  {
    && (forall i, j :: 0 <= i < j < |names| ==>
          names[i] in hd.vals && names[j] in hd.vals && hd.vals[names[i]] <= hd.vals[names[j]])
    && (forall i, j, p, q :: 0 <= i < j < |names| && 0 <= p < |hd.keys| && 0 <= q < |hd.keys| ==>
          (hd.keys[p] == names[i] && hd.keys[q] == names[j] && hd.vals[names[i]] == hd.vals[names[j]] ==> p < q))
  }

  /** ordered_header_list: every column name once, by column number, names
      sharing a number in the dict's key order. With no columns the list is
      never bound, and sorting it is a NameError. */
  function OrderedHeaders(hd: Dict<int>): (r: Result<seq<string>>)
    requires Valid(hd)
    ensures r.Err? <==> hd.keys == []
    ensures r.Err? ==> r.error == NameError
    ensures r.Ok? ==> EachColumnOnce(hd, r.value) && ByColumnNumber(hd, r.value)
  {
    if hd.keys == [] then Err(NameError)
    else
      var order := StableOrder(IndexKeys(hd), |hd.keys|);
      var names := seq(|order|, i requires 0 <= i < |order| => hd.keys[order[i]]);
      OrderedNamesOnce(hd, order, names);
      OrderedNamesSorted(hd, order, names);
      Ok(names)
  }

  /** Reading the dict's names through a permutation of their positions
      gives each name once. */
  lemma OrderedNamesOnce(hd: Dict<int>, order: seq<nat>, names: seq<string>)
    requires Valid(hd) && |order| == |hd.keys| && forall i :: 0 <= i < |order| ==> order[i] < |hd.keys|
    requires Distinct(order) && forall i: nat :: i in order <==> i < |hd.keys|
    requires |names| == |order| && forall i :: 0 <= i < |order| ==> names[i] == hd.keys[order[i]]
    ensures EachColumnOnce(hd, names)
  {
    forall x | x in hd.vals ensures x in names {
      var p :| 0 <= p < |hd.keys| && hd.keys[p] == x;
      assert p in order;
      var i :| 0 <= i < |order| && order[i] == p;
      assert names[i] == x;
    }
    forall i, j | 0 <= i < j < |names| ensures names[i] != names[j] {
      assert order[i] != order[j];
      assert hd.keys[order[i]] != hd.keys[order[j]];
    }
    forall i | 0 <= i < |names| ensures names[i] in hd.vals {
      assert hd.keys[order[i]] in hd.keys;
    }
  }

  /** Reading the names through the stable sort order of their numbers puts
      them in ascending number, ties in key order. */
  lemma OrderedNamesSorted(hd: Dict<int>, order: seq<nat>, names: seq<string>)
    requires Valid(hd) && OrderedBy(IndexKeys(hd), order)
    requires |names| == |order| && forall i :: 0 <= i < |order| ==> names[i] == hd.keys[order[i]]
    ensures ByColumnNumber(hd, names)
  {
    var keys := IndexKeys(hd);
    forall i, j | 0 <= i < j < |names|
      ensures names[i] in hd.vals && names[j] in hd.vals && hd.vals[names[i]] <= hd.vals[names[j]]
    {
      assert Before(keys, order[i], order[j]);
    }
    forall i, j, p, q | 0 <= i < j < |names| && 0 <= p < |hd.keys| && 0 <= q < |hd.keys| &&
        hd.keys[p] == names[i] && hd.keys[q] == names[j] && hd.vals[names[i]] == hd.vals[names[j]]
      ensures p < q
    {
      assert p == order[i] && q == order[j];
      assert Before(keys, order[i], order[j]);
    }
  }

  /** Each declaration the writer emits, numbered on from the ones before. */
  lemma {:induction false} DeclLinesSnoc(names: seq<string>, first: int, x: string, n: int)
    requires n == first + |names|
    ensures DeclLines(names + [x], first) == DeclLines(names, first) + [DeclLine(x, n)]
    decreases |names|
  {
    DeclLinesCons(names + [x], first);
    if names == [] {
      assert [x][1..] == [];
    } else {
      DropAppend(names, [x]);
      DeclLinesCons(names, first);
      DeclLinesSnoc(names[1..], first + 1, x, n);
      AppendAssoc([DeclLine(names[0], first)], DeclLines(names[1..], first + 1), [DeclLine(x, n)]);
    }
  }

  /** The declaration block numbers the names from first, one line each. */
  lemma DeclLinesAt(names: seq<string>, first: int)
    ensures forall k :: 0 <= k < |names| ==> DeclLines(names, first)[k] == DeclLine(names[k], first + k)
  {
    forall k | 0 <= k < |names| ensures DeclLines(names, first)[k] == DeclLine(names[k], first + k) {
      DeclLineAt(names, first, k, first + k);
    }
  }

  /** The k-th declaration carries the k-th name and the number n = first + k. */
  lemma {:induction false} DeclLineAt(names: seq<string>, first: int, k: nat, n: int)
    requires k < |names| && n == first + k
    ensures DeclLines(names, first)[k] == DeclLine(names[k], n)
    decreases k
  {
    DeclLinesCons(names, first);
    if k > 0 {
      ConsAt(DeclLine(names[0], first), DeclLines(names[1..], first + 1), k);
      DeclLineAt(names[1..], first + 1, k - 1, n);
      DropAt(names, k);
    }
  }

  lemma DeclLinesCons(names: seq<string>, first: int)
    requires names != []
    ensures DeclLines(names, first) == [DeclLine(names[0], first)] + DeclLines(names[1..], first + 1)
  {
  }

  /** The lines both writers put before the column declarations: the first
      comment and the optics block when there is an optics block, then the
      first comment again between spaces, the data block marker and `loop_`.
      Either part needs star_comments[0]: no comment is an IndexError. */
  function Preamble(opticsInfo: seq<string>, comments: seq<string>, marker: string): (r: Result<seq<string>>)
    ensures r.Err? <==> comments == []
    ensures r.Err? ==> r.error == IndexError
    ensures r.Ok? ==> |r.value| == (if opticsInfo == [] then 0 else |opticsInfo| + 4) + 6
    ensures r.Ok? ==> var n := |r.value|;
                      && r.value[n - 1] == "loop_" && r.value[n - 3] == marker
                      && r.value[n - 5] == " " + comments[0] + " "
    ensures r.Ok? && opticsInfo != [] ==>
              r.value[1] == comments[0] && r.value[3..3 + |opticsInfo|] == opticsInfo
  {
    if comments == [] then Err(IndexError)
    else
      var optics := if opticsInfo == [] then [] else ["", comments[0], ""] + opticsInfo + [""];
      Ok(optics + ["", " " + comments[0] + " ", "", marker, "", "loop_"])
  }

  /** One data line per row, each cell followed by a tab. */
  function RowLines(rows: seq<seq<string>>): (lines: seq<string>)
    ensures |lines| == |rows|
    ensures forall i :: 0 <= i < |rows| ==> lines[i] == JoinCells(rows[i])
  {
    seq(|rows|, i requires 0 <= i < |rows| => JoinCells(rows[i]))
  }

  /** Data lines whose cells are non-empty and free of whitespace split back
      into the rows they were written from. */
  lemma RowLinesSplit(rows: seq<seq<string>>)
    requires forall i, k :: 0 <= i < |rows| && 0 <= k < |rows[i]| ==> rows[i][k] != [] && NoSpace(rows[i][k])
    ensures forall i :: 0 <= i < |rows| ==> Split(RowLines(rows)[i]) == rows[i]
  {
    forall i | 0 <= i < |rows| ensures Split(RowLines(rows)[i]) == rows[i] {
      SplitJoinCells(rows[i]);
    }
  }

  /** An optics block as the readers collect it: `data_optics`, then lines
      that are stripped and neither comments nor block markers. */
  predicate OpticsBlock(opticsInfo: seq<string>, v: Variant)
  {
    && opticsInfo != [] && opticsInfo[0] == "data_optics"
    && forall k :: 1 <= k < |opticsInfo| ==> OpticsBody(opticsInfo[k], v) && Stripped(opticsInfo[k])
  }

  /** A comment line as the readers collect it. */
  predicate CommentLine(c: string)
  {
    c != [] && c[0] == '#' && Stripped(c)
  }

  /** The name a writer saves to: the stem, then, when the
      edited columns are saved, the name of each edited column in the order
      new_data_headers received them, then `.star`. */
  function SaveName(filename: string, nh: Dict<int>, saveUpdated: bool): (name: string)
  {
    SaveStem(filename) + (if saveUpdated && nh.keys != [] then Joined(nh.keys, |nh.keys|) else "") + ".star"
  }

  /** self.headers once the edited columns are saved: each name of
      new_data_headers is pointed at its appended column. */
  function SavedHeaders(hd: Dict<int>, nh: Dict<int>, saveUpdated: bool): (r: Dict<int>)
    requires Valid(hd) && Valid(nh)
    ensures Valid(r)
  {
    if saveUpdated && nh.keys != [] then Overlay(hd, nh, nh.keys) else hd
  }

  /** Each header the writer declares is read, in the saved headers, from the
      column new_data_headers gives it when the edited columns are saved and
      it is one of them, and from its original column otherwise; the saved
      headers keep the original names in their order. */
  lemma SavedColumns(hd: Dict<int>, nh: Dict<int>, saveUpdated: bool)
    requires Valid(hd) && Valid(nh)
    ensures |hd.keys| <= |SavedHeaders(hd, nh, saveUpdated).keys|
    ensures SavedHeaders(hd, nh, saveUpdated).keys[..|hd.keys|] == hd.keys
    ensures forall x :: x in hd.vals ==>
              (x in SavedHeaders(hd, nh, saveUpdated).vals &&
               SavedHeaders(hd, nh, saveUpdated).vals[x] == if saveUpdated && x in nh.vals then nh.vals[x] else hd.vals[x])
  {
    if saveUpdated && nh.keys != [] {
      OverlayKeys(hd, nh, nh.keys);
      OverlayValues(hd, nh, nh.keys);
    }
  }

  /** Splitting data line i of columns written row by row after zip(*)
      gives back, field by field, cell i of each column; there are as many
      lines as the shortest column has cells. */
  lemma ColumnLinesFields(cols: seq<seq<string>>)
    requires forall j, i :: 0 <= j < |cols| && 0 <= i < |cols[j]| ==> cols[j][i] != [] && NoSpace(cols[j][i])
    ensures var lines := RowLines(Zip(cols));
            && |lines| == MinWidth(cols)
            && forall i :: 0 <= i < |lines| ==>
                 (|Split(lines[i])| == |cols| && forall j :: 0 <= j < |cols| ==> Split(lines[i])[j] == cols[j][i])
  {
    var rows := Zip(cols);
    forall i, k | 0 <= i < |rows| && 0 <= k < |rows[i]| ensures rows[i][k] != [] && NoSpace(rows[i][k]) {
      assert rows[i][k] == cols[k][i];
    }
    RowLinesSplit(rows);
  }

  /** What the readers keep of the lines before the declarations: blank lines
      dropped and the padded comment stripped back to the comment. */
  function CleanPreamble(opticsInfo: seq<string>, c: string, marker: string): seq<string>
  {
    (if opticsInfo == [] then [] else [c] + opticsInfo) + [c, marker, "loop_"]
  }

  lemma CleanOpticsPart(opticsInfo: seq<string>, c: string, v: Variant)
    requires CommentLine(c) && OpticsBlock(opticsInfo, v)
    ensures CleanLines(["", c, ""] + opticsInfo + [""]) == [c] + opticsInfo
  {
    var tail := opticsInfo + [""];
    CleanOpticsTail(opticsInfo, v);
    var t2 := [""] + tail;
    CleanBlank(tail);
    var t1 := [c] + t2;
    CleanKept(c, t2);
    CleanBlank(t1);
    AppendAssoc(["", c, ""], opticsInfo, [""]);
    ConsThree("", c, "", tail);
  }

  /** The optics block and the blank line after it read back as the block. */
  lemma CleanOpticsTail(opticsInfo: seq<string>, v: Variant)
    requires OpticsBlock(opticsInfo, v)
    ensures CleanLines(opticsInfo + [""]) == opticsInfo
  {
    OpticsBlockClean(opticsInfo, v);
    CleanLinesOfClean(opticsInfo);
    CleanSnocBlank(opticsInfo);
  }

  /** A blank line after lines that read back as they are adds nothing. */
  lemma CleanSnocBlank(lines: seq<string>)
    requires CleanLines(lines) == lines
    ensures CleanLines(lines + [""]) == lines
  {
    CleanLinesAppend(lines, [""]);
    CleanBlank([]);
    assert [""] + [] == [""];
    assert lines + [] == lines;
  }

  /** Every line of an optics block is non-blank and stripped. */
  lemma OpticsBlockClean(opticsInfo: seq<string>, v: Variant)
    requires OpticsBlock(opticsInfo, v)
    ensures forall k :: 0 <= k < |opticsInfo| ==> opticsInfo[k] != [] && Stripped(opticsInfo[k])
  {
    assert Stripped("data_optics");
  }

  lemma ConsThree<T>(x: T, y: T, z: T, rest: seq<T>)
    ensures [x, y, z] + rest == [x] + ([y] + ([z] + rest))
  {
  }

  lemma CleanTailPart(c: string, marker: string)
    requires CommentLine(c) && marker != [] && Stripped(marker)
    ensures CleanLines(["", " " + c + " ", "", marker, "", "loop_"]) == [c, marker, "loop_"]
  {
    var t5: seq<string> := ["loop_"];
    var t4 := [""] + t5;
    var t3 := [marker] + t4;
    var t2 := [""] + t3;
    var t1 := [" " + c + " "] + t2;
    var t0 := [""] + t1;
    assert Stripped("loop_");
    CleanKept("loop_", []);
    CleanBlank(t5);
    CleanKept(marker, t4);
    CleanBlank(t3);
    CleanPadded(c, t2);
    CleanBlank(t1);
    assert t0 == ["", " " + c + " ", "", marker, "", "loop_"];
  }

  /** A declaration line has no surrounding whitespace. */
  lemma DeclLineStripped(name: string, n: int)
    ensures DeclLine(name, n) != [] && Stripped(DeclLine(name, n))
  {
    var digits := IntToStr(n);
    assert DeclLine(name, n)[|DeclLine(name, n)| - 1] == digits[|digits| - 1];
  }

  lemma CleanDecls(names: seq<string>, first: int)
    ensures CleanLines(DeclLines(names, first)) == DeclLines(names, first)
  {
    DeclLinesAt(names, first);
    forall k | 0 <= k < |names| ensures DeclLines(names, first)[k] != [] && Stripped(DeclLines(names, first)[k]) {
      DeclLineStripped(names[k], first + k);
    }
    CleanLinesOfClean(DeclLines(names, first));
  }

  /** Blank lines and padding are all the readers drop from the header
      section the writers emit. */
  lemma CleanHeaderSection(opticsInfo: seq<string>, comments: seq<string>, marker: string, names: seq<string>, v: Variant)
    requires comments != [] && CommentLine(comments[0])
    requires opticsInfo == [] || OpticsBlock(opticsInfo, v)
    requires marker != [] && Stripped(marker)
    ensures CleanLines(Preamble(opticsInfo, comments, marker).value + DeclLines(names, 1)) ==
            CleanPreamble(opticsInfo, comments[0], marker) + DeclLines(names, 1)
  {
    var c := comments[0];
    var tail := ["", " " + c + " ", "", marker, "", "loop_"];
    var optics := if opticsInfo == [] then [] else ["", c, ""] + opticsInfo + [""];
    assert Preamble(opticsInfo, comments, marker).value == optics + tail;
    CleanLinesAppend(optics + tail, DeclLines(names, 1));
    CleanLinesAppend(optics, tail);
    CleanTailPart(c, marker);
    CleanDecls(names, 1);
    if opticsInfo != [] {
      CleanOpticsPart(opticsInfo, c, v);
    }
  }

  /** One line the reader accepts, then the rest. */
  lemma ScanLine(st: Scan, line: string, rest: seq<string>, v: Variant)
    requires line != [] && NonBlank(rest) && Valid(st.headers) && Step(st, line, v).Ok?
    ensures NonBlank([line] + rest)
    ensures ScanFrom(st, [line] + rest, v) == ScanFrom(Step(st, line, v).value, rest, v)
  {
    var lines := [line] + rest;
    assert lines[0] == line && lines[1..] == rest;
    forall k | 0 <= k < |lines| ensures lines[k] != [] {
      if k > 0 {
        assert lines[k] == rest[k - 1];
      }
    }
    ScanFromFirst(st, lines, v);
  }

  /** The comment, `data_particles`, `loop_` and the declarations, read from
      a state outside any optics block or inside one. */
  lemma ScanDeclSection(st: Scan, c: string, names: seq<string>, v: Variant)
    requires Valid(st.headers) && CommentLine(c)
    requires forall k :: 0 <= k < |names| ==> NoSpace(names[k])
    ensures NonBlank([c, "data_particles", "loop_"] + DeclLines(names, 1))
    ensures ScanFrom(st, [c, "data_particles", "loop_"] + DeclLines(names, 1), v) ==
            Ok(st.(optics := false, comments := st.comments + [c], headers := PutAll(st.headers, names, 1)))
  {
    var decls := DeclLines(names, 1);
    var st1 := st.(comments := st.comments + [c]);
    var st2 := st1.(optics := false);
    ScanDeclLines(st2, names, 1, v);
    ScanLoopMarker(st2, v);
    ScanLine(st2, "loop_", decls, v);
    StepParticles(st1, v);
    ScanLine(st1, "data_particles", ["loop_"] + decls, v);
    StepComment(st, c, v);
    ScanLine(st, c, ["data_particles"] + (["loop_"] + decls), v);
    ConsThree(c, "data_particles", "loop_", decls);
  }

  /** The cleaned header section of a file without an optics block. */
  lemma ScanPlainHeader(st: Scan, c: string, names: seq<string>, v: Variant)
    requires Valid(st.headers) && CommentLine(c)
    requires forall k :: 0 <= k < |names| ==> NoSpace(names[k])
    ensures NonBlank(CleanPreamble([], c, "data_particles") + DeclLines(names, 1))
    ensures ScanFrom(st, CleanPreamble([], c, "data_particles") + DeclLines(names, 1), v) ==
            Ok(st.(optics := false, comments := st.comments + [c], headers := PutAll(st.headers, names, 1)))
  {
    assert CleanPreamble([], c, "data_particles") == [c, "data_particles", "loop_"];
    ScanDeclSection(st, c, names, v);
  }

  /** The cleaned header section of a file with an optics block. */
  lemma ScanOpticsHeader(st: Scan, opticsInfo: seq<string>, c: string, names: seq<string>, v: Variant)
    requires Valid(st.headers) && CommentLine(c) && OpticsBlock(opticsInfo, v)
    requires forall k :: 0 <= k < |names| ==> NoSpace(names[k])
    ensures NonBlank(CleanPreamble(opticsInfo, c, "data_particles") + DeclLines(names, 1))
    ensures ScanFrom(st, CleanPreamble(opticsInfo, c, "data_particles") + DeclLines(names, 1), v) ==
            Ok(st.(optics := false, comments := st.comments + [c, c], opticsInfo := st.opticsInfo + opticsInfo,
                   headers := PutAll(st.headers, names, 1)))
  {
    var rest := [c, "data_particles", "loop_"] + DeclLines(names, 1);
    var body := opticsInfo[1..];
    var st1 := st.(comments := st.comments + [c]);
    var st2 := st1.(optics := true, opticsInfo := st.opticsInfo + ["data_optics"]);
    OpticsHeaderLines(opticsInfo, c, DeclLines(names, 1));
    StepComment(st, c, v);
    StepOpticsStart(st1, v);
    ScanOpticsThenDecls(st2, body, c, names, v);
    ScanLine(st1, "data_optics", body + rest, v);
    ScanLine(st, c, ["data_optics"] + (body + rest), v);
    OpticsHeaderState(st, opticsInfo, c, names);
  }

  lemma OpticsHeaderLines(opticsInfo: seq<string>, c: string, decls: seq<string>)
    requires opticsInfo != [] && opticsInfo[0] == "data_optics"
    ensures CleanPreamble(opticsInfo, c, "data_particles") + decls ==
            [c] + (["data_optics"] + (opticsInfo[1..] + ([c, "data_particles", "loop_"] + decls)))
  {
    assert opticsInfo == ["data_optics"] + opticsInfo[1..];
  }

  /** The rest of an optics block, then the comment, `data_particles`,
      `loop_` and the declarations. */
  lemma ScanOpticsThenDecls(st: Scan, body: seq<string>, c: string, names: seq<string>, v: Variant)
    requires Valid(st.headers) && st.optics && CommentLine(c)
    requires forall k :: 0 <= k < |body| ==> OpticsBody(body[k], v)
    requires forall k :: 0 <= k < |names| ==> NoSpace(names[k])
    ensures NonBlank(body + ([c, "data_particles", "loop_"] + DeclLines(names, 1)))
    ensures ScanFrom(st, body + ([c, "data_particles", "loop_"] + DeclLines(names, 1)), v) ==
            Ok(st.(optics := false, comments := st.comments + [c], opticsInfo := st.opticsInfo + body,
                   headers := PutAll(st.headers, names, 1)))
  {
    var rest := [c, "data_particles", "loop_"] + DeclLines(names, 1);
    ScanDeclSection(st.(opticsInfo := st.opticsInfo + body), c, names, v);
    ScanOpticsBody(st, body, rest, v);
  }

  lemma OpticsHeaderState(st: Scan, opticsInfo: seq<string>, c: string, names: seq<string>)
    requires Valid(st.headers) && opticsInfo != [] && opticsInfo[0] == "data_optics"
    ensures var st2 := st.(comments := st.comments + [c], optics := true, opticsInfo := st.opticsInfo + ["data_optics"]);
            st2.(optics := false, comments := st2.comments + [c], opticsInfo := st2.opticsInfo + opticsInfo[1..],
                 headers := PutAll(st2.headers, names, 1)) ==
            st.(optics := false, comments := st.comments + [c, c], opticsInfo := st.opticsInfo + opticsInfo,
                headers := PutAll(st.headers, names, 1))
  {
    assert opticsInfo == ["data_optics"] + opticsInfo[1..];
    AppendAssoc(st.opticsInfo, ["data_optics"], opticsInfo[1..]);
    AppendAssoc(st.comments, [c], [c]);
  }

  /** The header section a writer emits with the `data_particles` marker,
      read back: the first comment is collected once more for the optics
      block, the optics block is kept as it was, and the names are declared
      in the order written, at 0, 1, 2, ... */
  lemma ReadBackHeader(opticsInfo: seq<string>, comments: seq<string>, names: seq<string>, v: Variant)
    requires comments != [] && CommentLine(comments[0])
    requires opticsInfo == [] || OpticsBlock(opticsInfo, v)
    requires forall k :: 0 <= k < |names| ==> NoSpace(names[k])
    ensures NonBlank(CleanLines(Preamble(opticsInfo, comments, "data_particles").value + DeclLines(names, 1)))
    ensures var lines := CleanLines(Preamble(opticsInfo, comments, "data_particles").value + DeclLines(names, 1));
            var c := comments[0];
            ScanAll(lines, v) == Ok(Scan(false, if opticsInfo == [] then [c] else [c, c], opticsInfo, PutAll(Empty(), names, 1), [], []))
  {
    ReadBackHeaderFrom(InitialScan(), opticsInfo, comments, names, v);
    FromInitial(opticsInfo, if opticsInfo == [] then [comments[0]] else [comments[0], comments[0]], names);
  }

  lemma FromInitial(opticsInfo: seq<string>, comments: seq<string>, names: seq<string>)
    ensures InitialScan().(optics := false, comments := InitialScan().comments + comments,
              opticsInfo := InitialScan().opticsInfo + opticsInfo, headers := PutAll(InitialScan().headers, names, 1)) ==
            Scan(false, comments, opticsInfo, PutAll(Empty(), names, 1), [], [])
  {
    assert [] + comments == comments && [] + opticsInfo == opticsInfo;
  }

  lemma ReadBackHeaderFrom(st: Scan, opticsInfo: seq<string>, comments: seq<string>, names: seq<string>, v: Variant)
    requires Valid(st.headers)
    requires comments != [] && CommentLine(comments[0])
    requires opticsInfo == [] || OpticsBlock(opticsInfo, v)
    requires forall k :: 0 <= k < |names| ==> NoSpace(names[k])
    ensures NonBlank(CleanLines(Preamble(opticsInfo, comments, "data_particles").value + DeclLines(names, 1)))
    ensures ScanFrom(st, CleanLines(Preamble(opticsInfo, comments, "data_particles").value + DeclLines(names, 1)), v) ==
            Ok(st.(optics := false, comments := st.comments + (if opticsInfo == [] then [comments[0]] else [comments[0], comments[0]]),
                   opticsInfo := st.opticsInfo + opticsInfo, headers := PutAll(st.headers, names, 1)))
  {
    assert Stripped("data_particles");
    CleanHeaderSection(opticsInfo, comments, "data_particles", names, v);
    if opticsInfo == [] {
      ScanPlainHeader(st, comments[0], names, v);
      assert st.opticsInfo + opticsInfo == st.opticsInfo;
    } else {
      ScanOpticsHeader(st, opticsInfo, comments[0], names, v);
    }
  }

  /** `hd[key] = nh[key]` and the key appended to the name, for each key of
      nh in turn. */
  method Redirect(hd: Dict<int>, nh: Dict<int>) returns (hd': Dict<int>, suffix: string)
    requires Valid(hd) && Valid(nh)
    ensures hd' == Overlay(hd, nh, nh.keys)
    ensures suffix == Joined(nh.keys, |nh.keys|)
  {
    var keys := nh.keys;
    hd', suffix := hd, "";
    for i := 0 to |keys|
      invariant hd' == Overlay(hd, nh, keys[..i])
      invariant suffix == Joined(keys, i)
    {
      var key, column := RedirectNext(hd, nh, i, hd');
      hd' := Put(hd', key, column);
      suffix := suffix + key;
    }
    assert keys[..|keys|] == keys;
  }

  /** The key the loop handles at step i and its number in nh. */
  method RedirectNext(hd: Dict<int>, nh: Dict<int>, i: nat, ghost cur: Dict<int>) returns (key: string, column: int)
    requires Valid(hd) && Valid(nh) && i < |nh.keys|
    requires cur == Overlay(hd, nh, nh.keys[..i])
    ensures key == nh.keys[i] && Valid(cur)
    ensures Put(cur, key, column) == Overlay(hd, nh, nh.keys[..i + 1])
  {
    key := nh.keys[i];
    column := nh.vals[key];
    OverlaySnoc(hd, nh, nh.keys, i);
  }

  /** `hd[key] = nh[key]` for each key of nh in turn. */
  method Repoint(hd: Dict<int>, nh: Dict<int>) returns (hd': Dict<int>)
    requires Valid(hd) && Valid(nh)
    ensures hd' == Overlay(hd, nh, nh.keys)
  {
    var keys := nh.keys;
    hd' := hd;
    for i := 0 to |keys|
      invariant hd' == Overlay(hd, nh, keys[..i])
    {
      var key, column := RedirectNext(hd, nh, i, hd');
      hd' := Put(hd', key, column);
    }
    assert keys[..|keys|] == keys;
  }

  /** The preamble with the given data block marker, then `_name #number` for each name numbered from 1. */
  method WriteHeader(opticsInfo: seq<string>, comments: seq<string>, names: seq<string>, marker: string) returns (r: Result<seq<string>>)
    ensures r.Err? <==> comments == []
    ensures r.Err? ==> r.error == IndexError
    ensures r.Ok? ==> r.value == Preamble(opticsInfo, comments, marker).value + DeclLines(names, 1)
  {
    var lines: seq<string> := [];
    if |opticsInfo| > 0 {
      if |comments| == 0 {
        return Err(IndexError);
      }
      lines := ["", comments[0], ""];
      for i := 0 to |opticsInfo|
        invariant lines == ["", comments[0], ""] + opticsInfo[..i]
      {
        lines := lines + [opticsInfo[i]];
      }
      lines := lines + [""];
    }
    if |comments| == 0 {
      return Err(IndexError);
    }
    lines := lines + ["", " " + comments[0] + " ", "", marker, "", "loop_"];
    ghost var pre := lines;
    for k := 0 to |names|
      invariant lines == pre + DeclLines(names[..k], 1)
    {
      DeclLinesSnoc(names[..k], 1, names[k], k + 1);
      assert names[..k + 1] == names[..k] + [names[k]];
      lines := lines + [DeclLine(names[k], k + 1)];
    }
    assert names[..|names|] == names;
    r := Ok(lines);
  }

}
