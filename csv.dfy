/**
 * The CSV text the admin pages download: every field wrapped in double
 * quotes, fields joined by ',', lines by '\n'.  Quotes inside a field are
 * not doubled, so the round trips below hold for fields free of ',' and
 * line breaks only.
 */
module Csv {
  import opened Text

  /** `"${field}"`. */
  function Quote(f: string): (r: string)
    ensures |r| == |f| + 2 && r[0] == '"' && r[|r| - 1] == '"' && r[1..|r| - 1] == f
  {
    "\"" + f + "\""
  }

  function Unquote(q: string): string {
    if |q| >= 2 then q[1..|q| - 1] else q
  }

  function Quotes(fields: seq<string>): (r: seq<string>)
    ensures |r| == |fields| && forall k :: 0 <= k < |fields| ==> r[k] == Quote(fields[k])
  {
    seq(|fields|, k requires 0 <= k < |fields| => Quote(fields[k]))
  }

  /** One record: the quoted fields joined by ','. */
  function CsvLine(fields: seq<string>): string {
    Join(Quotes(fields), ",")
  }

  /** Reading a record back: split on ',' and strip the surrounding quotes. */
  function ParseLine(line: string): (r: seq<string>) {
    var ps := SplitOn(line, ",");
    seq(|ps|, k requires 0 <= k < |ps| => Unquote(ps[k]))
  }

  predicate FreeOf(f: string, cs: string) { forall i :: 0 <= i < |f| ==> f[i] !in cs }

  /** A record whose fields hold no ',' reads back as the same fields. */
  lemma LineRoundTrip(fields: seq<string>)
    requires fields != []
    requires forall k :: 0 <= k < |fields| ==> FreeOf(fields[k], ",")
    ensures ParseLine(CsvLine(fields)) == fields
  {
    var qs := Quotes(fields);
    forall k | 0 <= k < |qs| ensures Free(qs[k], ',') {
      assert qs[k] == "\"" + fields[k] + "\"";
      forall i | 0 <= i < |qs[k]| ensures qs[k][i] != ',' {
        if 0 < i < |qs[k]| - 1 { assert qs[k][i] == fields[k][i - 1]; }
      }
    }
    SplitJoin(qs, ',');
  }

  /** A record holds a line break only where one of its fields does. */
  lemma LineFree(fields: seq<string>, c: char)
    requires c != '"' && c != ','
    requires forall k :: 0 <= k < |fields| ==> Free(fields[k], c)
    ensures Free(CsvLine(fields), c)
  {
    JoinFree(Quotes(fields), ",", c);
  }

  lemma {:induction false} JoinFree(ps: seq<string>, sep: string, c: char)
    requires Free(sep, c)
    requires forall k :: 0 <= k < |ps| ==> Free(ps[k], c)
    ensures Free(Join(ps, sep), c)
  {
    if |ps| > 1 {
      JoinFree(ps[1..], sep, c);
    }
  }

  /** The lines, each followed by '\n', as `csv += …\n` builds them. */
  function Terminated(lines: seq<string>): string {
    if lines == [] then [] else Terminated(lines[..|lines| - 1]) + lines[|lines| - 1] + "\n"
  }

  /** Newline-terminated lines are the '\n'-join of the lines with an empty last piece. */
  lemma {:induction false} TerminatedJoin(lines: seq<string>)
    ensures lines != [] ==> Terminated(lines) == Join(lines + [[]], "\n")
  {
    if lines != [] {
      if |lines| == 1 {
        assert lines + [[]] == [lines[0], []];
      } else {
        var init := lines[..|lines| - 1];
        TerminatedJoin(init);
        JoinSnoc(init, lines[|lines| - 1], "\n");
        assert init + [lines[|lines| - 1]] == lines;
      }
    }
  }

  /** Joining with one more piece: the old join with its empty last piece replaced. */
  lemma {:induction false} JoinSnoc(ps: seq<string>, x: string, sep: string)
    requires ps != []
    ensures Join(ps + [x] + [[]], sep) == Join(ps + [[]], sep) + x + sep
  {
    if |ps| == 1 {
      assert ps + [x] + [[]] == [ps[0], x, []];
      assert ps + [[]] == [ps[0], []];
      assert [x, []][1..] == [[]];
    } else {
      JoinSnoc(ps[1..], x, sep);
      assert (ps + [x] + [[]])[1..] == ps[1..] + [x] + [[]];
      assert (ps + [[]])[1..] == ps[1..] + [[]];
    }
  }

  /**
   * The text a `csv += …` export produces, split at '\n': the header, each
   * record, then the empty piece after the final newline.
   */
  lemma TerminatedSplit(lines: seq<string>)
    requires lines != []
    requires forall k :: 0 <= k < |lines| ==> Free(lines[k], '\n')
    ensures SplitOn(Terminated(lines), "\n") == lines + [[]]
  {
    var ps := lines + [[]];
    TerminatedJoin(lines);
    assert Terminated(lines) == Join(ps, ['\n']);
    forall k | 0 <= k < |ps| ensures Free(ps[k], '\n') {
      if k < |lines| { assert ps[k] == lines[k]; }
    }
    SplitJoin(ps, '\n');
  }

  /** Records of fields free of ',' and '\n'. */
  predicate Plain(rows: seq<seq<string>>) {
    forall r, k :: 0 <= r < |rows| && 0 <= k < |rows[r]| ==> FreeOf(rows[r][k], ",\n")
  }

  /** The field lists of the records an export reads, one per record, in table order. */
  function Records<T>(data: seq<T>, fields: T -> seq<string>): (r: seq<seq<string>>)
    ensures |r| == |data| && forall k :: 0 <= k < |data| ==> r[k] == fields(data[k])
  {
    seq(|data|, k requires 0 <= k < |data| => fields(data[k]))
  }

  function Lines(rows: seq<seq<string>>): (r: seq<string>)
    ensures |r| == |rows| && forall k :: 0 <= k < |rows| ==> r[k] == CsvLine(rows[k])
  {
    seq(|rows|, k requires 0 <= k < |rows| => CsvLine(rows[k]))
  }

  lemma PlainLinesFree(rows: seq<seq<string>>)
    requires Plain(rows)
    ensures forall k :: 0 <= k < |rows| ==> Free(CsvLine(rows[k]), '\n')
  {
    forall k | 0 <= k < |rows| ensures Free(CsvLine(rows[k]), '\n') {
      LineFree(rows[k], '\n');
    }
  }

  /**
   * `csv = header + '\n'`, then `csv += line + '\n'` per record: the
   * accumulation of the payouts and payments exports.
   */
  method AccumulateCsv(header: string, rows: seq<seq<string>>) returns (csv: string)
    ensures csv == Terminated([header] + Lines(rows))
  {
    csv := header + "\n";
    var ls := [header];
    assert Terminated(ls) == [] + header + "\n";
    for i := 0 to |rows|
      invariant ls == [header] + Lines(rows)[..i]
      invariant csv == Terminated(ls)
    {
      assert Lines(rows)[..i + 1] == Lines(rows)[..i] + [CsvLine(rows[i])];
      ls := ls + [CsvLine(rows[i])];
      csv := csv + CsvLine(rows[i]) + "\n";
    }
    assert Lines(rows)[..|rows|] == Lines(rows);
  }

  /** An accumulated export reads back as its header and its records, each record's fields intact. */
  lemma AccumulatedRoundTrip(header: string, rows: seq<seq<string>>)
    requires Free(header, '\n') && Plain(rows)
    ensures SplitOn(Terminated([header] + Lines(rows)), "\n") == [header] + Lines(rows) + [[]]
    ensures forall k :: 0 <= k < |rows| && rows[k] != [] ==> ParseLine(Lines(rows)[k]) == rows[k]
  {
    PlainLinesFree(rows);
    TerminatedSplit([header] + Lines(rows));
    forall k | 0 <= k < |rows| && rows[k] != [] ensures ParseLine(Lines(rows)[k]) == rows[k] {
      assert forall j :: 0 <= j < |rows[k]| ==> FreeOf(rows[k][j], ",\n");
      LineRoundTrip(rows[k]);
    }
  }
}
