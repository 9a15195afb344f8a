/** The reference STF codec of traj/stf/python/stf.py: `wtraj` writes a
    header of `key=value` lines closed by `** natoms`, then per frame one
    line of three integers `round(x * 10^prec)` per atom and a `*` line that
    may carry nine box values; `rtraj` reads it back. The zstd stream is the
    text it carries, float parsing is the parameter `parse`. */
module PyStf {
  import opened Wrappers
  import opened Text
  import opened Numbers

  // ---------------------------------------------------------------------
  // Header dictionaries

  /** A Python dict of strings, as its items in insertion order. */
  type Dict = seq<(string, string)>

  predicate DistinctKeys(d: Dict) {
    forall i, j :: 0 <= i < j < |d| ==> d[i].0 != d[j].0
  }

  /** `d.get(k)`. */
  function Lookup(d: Dict, k: string): (r: Option<string>)
    ensures r.None? <==> forall i :: 0 <= i < |d| ==> d[i].0 != k
    ensures r.Some? ==> (k, r.value) in d
  {
    if d == [] then None
    else if d[0].0 == k then Some(d[0].1)
    else
      var r := Lookup(d[1..], k);
      assert forall i :: 0 < i < |d| ==> d[i] == d[1..][i - 1];
      r
  }

  /** `d[k] = v`: an existing key keeps its place, a new one goes last. */
  function Put(d: Dict, k: string, v: string): (r: Dict)
    requires DistinctKeys(d)
    ensures DistinctKeys(r)
    ensures Lookup(r, k) == Some(v)
    ensures forall k' :: k' != k ==> Lookup(r, k') == Lookup(d, k')
    ensures Lookup(d, k).None? ==> r == d + [(k, v)]
    ensures forall i :: 0 <= i < |r| ==> r[i] == (k, v) || r[i] in d
  {
    if Lookup(d, k).Some? then
      var r := Replace(d, k, v);
      forall k' ensures Lookup(r, k') == if k' == k then Some(v) else Lookup(d, k') {
        LookupReplace(d, k, v, k');
      }
      r
    else
      var r := d + [(k, v)];
      forall k' ensures Lookup(r, k') == if k' == k then Some(v) else Lookup(d, k') {
        LookupAppend(d, (k, v), k');
      }
      r
  }

  /** The entries of `d` with the value under `k` replaced by `v`. */
  function Replace(d: Dict, k: string, v: string): (r: Dict)
    ensures |r| == |d|
    ensures forall i :: 0 <= i < |d| ==> r[i] == if d[i].0 == k then (k, v) else d[i]
  {
    if d == [] then [] else [if d[0].0 == k then (k, v) else d[0]] + Replace(d[1..], k, v)
  }

  lemma {:induction false} LookupReplace(d: Dict, k: string, v: string, k': string)
    requires Lookup(d, k).Some?
    ensures Lookup(Replace(d, k, v), k') == if k' == k then Some(v) else Lookup(d, k')
  {
    if k' == k {
      LookupReplaceSame(d, k, v);
    } else {
      LookupReplaceOther(d, k, v, k');
    }
  }

  lemma {:induction false} LookupReplaceSame(d: Dict, k: string, v: string)
    requires Lookup(d, k).Some?
    ensures Lookup(Replace(d, k, v), k) == Some(v)
  {
    var r := Replace(d, k, v);
    assert r == [r[0]] + Replace(d[1..], k, v);
    LookupCons(r[0], Replace(d[1..], k, v), k);
    if d[0].0 != k {
      LookupReplaceSame(d[1..], k, v);
    }
  }

  lemma {:induction false} LookupReplaceOther(d: Dict, k: string, v: string, k': string)
    requires k' != k
    ensures Lookup(Replace(d, k, v), k') == Lookup(d, k')
  {
    if d != [] {
      var r := Replace(d, k, v);
      assert r == [r[0]] + Replace(d[1..], k, v);
      LookupCons(r[0], Replace(d[1..], k, v), k');
      LookupReplaceOther(d[1..], k, v, k');
    }
  }

  lemma LookupCons(x: (string, string), rest: Dict, k: string)
    ensures Lookup([x] + rest, k) == if x.0 == k then Some(x.1) else Lookup(rest, k)
  {
    assert ([x] + rest)[1..] == rest;
  }

  lemma {:induction false} LookupAppend(d: Dict, x: (string, string), k': string)
    requires Lookup(d, x.0).None?
    ensures Lookup(d + [x], k') == if k' == x.0 then Some(x.1) else Lookup(d, k')
  {
    if d != [] {
      assert (d + [x])[1..] == d[1..] + [x];
      LookupAppend(d[1..], x, k');
    } else {
      assert [] + [x] == [x];
    }
  }

  /** The dictionary the writer puts in the header: the caller's, with
      `prec` set to "1" when the caller gave no dictionary, an empty one, or
      one whose `prec` is missing or not made of digits. */
  function WriterDict(d: Option<Dict>): (r: Dict)
    requires d.Some? ==> DistinctKeys(d.value)
    ensures DistinctKeys(r)
    ensures Lookup(r, "prec").Some? && IsDigitText(Lookup(r, "prec").value)
    ensures forall k :: k != "prec" ==> Lookup(r, k) == (if d.Some? then Lookup(d.value, k) else None)
    ensures d.Some? && Lookup(d.value, "prec").Some? && IsDigitText(Lookup(d.value, "prec").value) ==> r == d.value
    ensures !(d.Some? && Lookup(d.value, "prec").Some? && IsDigitText(Lookup(d.value, "prec").value))
            ==> Lookup(r, "prec") == Some("1")
  {
    if d.None? || d.value == [] then [("prec", "1")]
    else if Lookup(d.value, "prec").None? || !IsDigitText(Lookup(d.value, "prec").value) then Put(d.value, "prec", "1")
    else d.value
  }

  /** The writer's scale factor `10^int(d["prec"])`. */
  function WriterScale(d: Option<Dict>): nat
    requires d.Some? ==> DistinctKeys(d.value)
  {
    Pow10(DigitsValue(Lookup(WriterDict(d), "prec").value))
  }

  /** The `%s=%s` lines of a dictionary, in its order. */
  function DictLines(d: Dict): string {
    if d == [] then "" else DictLine(d[0]) + DictLines(d[1..])
  }

  function DictLine(e: (string, string)): string {
    e.0 + "=" + e.1 + "\n"
  }

  /** Everything the writer's constructor writes. */
  function HeaderText(d: Dict, natoms: int): string {
    DictLines(d) + SentinelLine(natoms)
  }

  /** The `** %d` line that closes the header. */
  function SentinelLine(natoms: int): string {
    "** " + IntText(natoms) + "\n"
  }

  // ---------------------------------------------------------------------
  // Frames as written

  /** A coordinate as the writer stores it: `round(x * scale)`. */
  function Quantize(x: real, scale: nat): (n: int)
    ensures (n as real) - 0.5 <= x * (scale as real)
    ensures x * (scale as real) <= (n as real) + 0.5
  {
    RoundHalfEven(x * scale as real)
  }

  /** The three `%d` words of one atom's row. */
  function RowWords(v: seq<real>, scale: nat): (r: seq<string>)
    requires |v| >= 3
    ensures |r| == 3 && forall c :: 0 <= c < 3 ==> r[c] == IntText(Quantize(v[c], scale))
  {
    [IntText(Quantize(v[0], scale)), IntText(Quantize(v[1], scale)), IntText(Quantize(v[2], scale))]
  }

  /** One atom: its three coordinates scaled and rounded, as `%d %d %d`. */
  function RowText(v: seq<real>, scale: nat): string
    requires |v| >= 3
  {
    Join(RowWords(v, scale), " ") + "\n"
  }

  predicate Rows3(rows: seq<seq<real>>) {
    forall i :: 0 <= i < |rows| ==> |rows[i]| >= 3
  }

  function RowsText(rows: seq<seq<real>>, scale: nat): string
    requires Rows3(rows)
  {
    if rows == [] then "" else RowText(rows[0], scale) + RowsText(rows[1..], scale)
  }

  lemma {:induction false} RowsTextSnoc(rows: seq<seq<real>>, v: seq<real>, scale: nat)
    requires Rows3(rows) && |v| >= 3
    ensures Rows3(rows + [v])
    ensures RowsText(rows + [v], scale) == RowsText(rows, scale) + RowText(v, scale)
  {
    var all := rows + [v];
    assert forall i :: 0 <= i < |all| ==> all[i] == (if i < |rows| then rows[i] else v);
    if rows != [] {
      assert all[0] == rows[0];
      assert all[1..] == rows[1..] + [v];
      RowsTextSnoc(rows[1..], v, scale);
      var a, b, c := RowText(rows[0], scale), RowsText(rows[1..], scale), RowText(v, scale);
      assert RowsText(all, scale) == a + (b + c);
      AppendAssoc(a, b, c);
    } else {
      assert all == [v];
      assert RowsText(all, scale) == RowText(v, scale) + RowsText([], scale);
    }
  }

  /** `%5.3f`. */
  function BoxNumber(x: real): string {
    PadLeft(FixedText(x, 3), 5)
  }

  /** The frame terminator: `*` alone, or followed by the first nine box
      values when the box has at least nine. */
  function BoxText(box: seq<real>): string {
    if |box| >= 9 then Join(["*"] + BoxFields(box), " ") + "\n" else "*\n"
  }

  /** The nine `%5.3f` fields of a box line. */
  function BoxFields(box: seq<real>): (r: seq<string>)
    requires |box| >= 9
    ensures |r| == 9 && forall i :: 0 <= i < 9 ==> r[i] == BoxNumber(box[i])
  {
    seq(9, i requires 0 <= i < 9 => BoxNumber(box[i]))
  }

  /** The first `n` rows, as far as the first that has fewer than three
      columns: the `%d` rows written before it and whether it was met. */
  function RowsUpTo(data: seq<seq<real>>, n: nat, scale: nat): (r: (string, bool))
    requires n <= |data|
    ensures !r.1 <==> Rows3(data[..n])
    ensures !r.1 ==> r.0 == RowsText(data[..n], scale)
  {
    if n == 0 then ("", false)
    else
      var (t, short) := RowsUpTo(data, n - 1, scale);
      assert data[..n] == data[..n - 1] + [data[n - 1]];
      if short then (t, true)
      else if |data[n - 1]| < 3 then (t, true)
      else
        RowsTextSnoc(data[..n - 1], data[n - 1], scale);
        (t + RowText(data[n - 1], scale), false)
  }

  /** What one `wnext(data, box)` writes, and the exception it raises if
      any: a `ValueError` with nothing written when there are fewer rows
      than atoms or the first row has fewer than three columns; otherwise
      the rows, and an `IndexError` at the first later row that has fewer
      than three columns, or else the terminator. */
  function FrameWrite(data: seq<seq<real>>, box: seq<real>, natoms: int, scale: nat): (r: (string, Option<string>))
    ensures |data| < natoms ==> r == ("", Some("ValueError"))
    ensures natoms <= |data| && data != [] && |data[0]| >= 3 && Rows3(data[..Max0(natoms)])
            ==> r == (RowsText(data[..Max0(natoms)], scale) + BoxText(box), None)
    ensures r.1.None? ==> natoms <= |data| && data != [] && |data[0]| >= 3 && Rows3(data[..Max0(natoms)])
  {
    if |data| < natoms then ("", Some("ValueError"))
    else if |data| == 0 then ("", Some("IndexError"))
    else if |data[0]| < 3 then
      assert data[..Max0(natoms)] != [] ==> data[..Max0(natoms)][0] == data[0];
      ("", Some("ValueError"))
    else
      var (t, short) := RowsUpTo(data, Max0(natoms), scale);
      if short then (t, Some("IndexError")) else (t + BoxText(box), None)
  }

  function Max0(n: int): nat {
    if n < 0 then 0 else n
  }

  /** The exception `wnext` raises on a closed writer: the size check
      runs first, and when it passes the first write to the closed stream
      raises a `ValueError`. Only the `data[0]` of empty data with no atoms
      to write is an `IndexError`. */
  function ClosedWrite(data: seq<seq<real>>, natoms: int): (e: string)
    ensures e == "IndexError" <==> data == [] && natoms <= 0
    ensures e != "IndexError" ==> e == "ValueError"
    ensures |data| < natoms || (data != [] && |data[0]| < 3) ==> e == FrameWrite(data, [], natoms, 1).1.value
  {
    if |data| < natoms then "ValueError"
    else if |data| == 0 then "IndexError"
    else "ValueError"
  }

  /** A write-mode trajectory, `wtraj`. */
  class Writer {
    /** The text written to the compressed stream so far. */
    var out: string
    /** The dictionary as written in the header. */
    var dict: Dict
    var scale: nat
    var natoms: int
    var closed: bool

    /** `wtraj(filename, natoms, d=d)`: the header is written at once. */
    constructor (natoms: int, d: Option<Dict>)
      requires d.Some? ==> DistinctKeys(d.value)
      ensures dict == WriterDict(d) && scale == WriterScale(d) && this.natoms == natoms
      ensures out == HeaderText(dict, natoms) && !closed
    {
      var dd := WriterDict(d);
      dict := dd;
      scale := Pow10(DigitsValue(Lookup(dd, "prec").value));
      this.natoms := natoms;
      closed := false;
      var text := "";
      var i := 0;
      while i < |dd|
        invariant 0 <= i <= |dd|
        invariant text + DictLines(dd[i..]) == DictLines(dd)
      {
        assert dd[i..][1..] == dd[i + 1..];
        assert DictLines(dd[i..]) == DictLine(dd[i]) + DictLines(dd[i + 1..]);
        AppendAssoc(text, DictLine(dd[i]), DictLines(dd[i + 1..]));
        text := text + DictLine(dd[i]);
        i := i + 1;
      }
      assert dd[i..] == [] && text + "" == text;
      out := text + SentinelLine(natoms);
    }

    /** `wnext(data, box)`: on an open writer, appends what `FrameWrite`
        says and reports the exception it names; after `close()`, writes
        nothing and raises what `ClosedWrite` names. */
    method WNext(data: seq<seq<real>>, box: seq<real>) returns (exc: Option<string>)
      modifies this
      ensures !closed ==> out == old(out) + FrameWrite(data, box, natoms, scale).0
      ensures !closed ==> exc == FrameWrite(data, box, natoms, scale).1
      ensures closed ==> out == old(out) && exc == Some(ClosedWrite(data, natoms))
      ensures dict == old(dict) && scale == old(scale) && natoms == old(natoms) && closed == old(closed)
    {
      if closed {
        exc := Some(ClosedWrite(data, natoms));
        return;
      }
      var text;
      text, exc := FrameOut(data, box, natoms, scale);
      out := out + text;
    }

    /** `close()`. */
    method Close()
      modifies this
      ensures closed && out == old(out) && dict == old(dict) && scale == old(scale) && natoms == old(natoms)
    {
      closed := true;
    }
  }

  /** The body of `wnext`: the text it writes and the exception it raises. */
  method FrameOut(data: seq<seq<real>>, box: seq<real>, natoms: int, scale: nat) returns (text: string, exc: Option<string>)
    ensures (text, exc) == FrameWrite(data, box, natoms, scale)
  {
    if |data| < natoms || |data| == 0 || |data[0]| < 3 {
      exc := if |data| < natoms || |data| != 0 then Some("ValueError") else Some("IndexError");
      return "", exc;
    }
    var n := Max0(natoms);
    var rows, stop := RowsWrite(data, n, scale);
    if stop < n {
      FrameWriteShort(data, box, natoms, scale, stop);
      return rows, Some("IndexError");
    }
    FrameWriteAll(data, box, natoms, scale);
    text := rows + BoxText(box);
    exc := None;
  }

  /** `wnext`'s row loop: the text of the rows before the first short one
      (or of all `n`), and where it stopped. */
  method RowsWrite(data: seq<seq<real>>, n: nat, scale: nat) returns (text: string, stop: nat)
    requires n <= |data|
    ensures stop <= n && RowsUpTo(data, stop, scale) == (text, false)
    ensures stop < n ==> |data[stop]| < 3
  {
    text := "";
    stop := 0;
    while stop < n
      invariant stop <= n
      invariant RowsUpTo(data, stop, scale) == (text, false)
    {
      if |data[stop]| < 3 {
        return;
      }
      RowsUpToNext(data, stop, scale);
      text := text + RowText(data[stop], scale);
      stop := stop + 1;
    }
  }

  /** One more full row. */
  lemma RowsUpToNext(data: seq<seq<real>>, i: nat, scale: nat)
    requires i < |data| && !RowsUpTo(data, i, scale).1 && |data[i]| >= 3
    ensures RowsUpTo(data, i + 1, scale) == (RowsUpTo(data, i, scale).0 + RowText(data[i], scale), false)
  {
  }

  lemma FrameWriteShort(data: seq<seq<real>>, box: seq<real>, natoms: int, scale: nat, i: nat)
    requires natoms <= |data| && data != [] && |data[0]| >= 3
    requires i < Max0(natoms) && |data[i]| < 3 && !RowsUpTo(data, i, scale).1
    ensures FrameWrite(data, box, natoms, scale) == (RowsUpTo(data, i, scale).0, Some("IndexError"))
  {
    RowsAfterShort(data, i + 1, Max0(natoms), scale);
  }

  lemma FrameWriteAll(data: seq<seq<real>>, box: seq<real>, natoms: int, scale: nat)
    requires natoms <= |data| && data != [] && |data[0]| >= 3
    requires !RowsUpTo(data, Max0(natoms), scale).1
    ensures FrameWrite(data, box, natoms, scale) == (RowsUpTo(data, Max0(natoms), scale).0 + BoxText(box), None)
  {
  }

  /** A short row stays met however many rows follow it. */
  lemma {:induction false} RowsAfterShort(data: seq<seq<real>>, i: nat, n: nat, scale: nat)
    requires 0 < i <= n <= |data| && |data[i - 1]| < 3
    requires !RowsUpTo(data, i - 1, scale).1
    ensures RowsUpTo(data, n, scale) == (RowsUpTo(data, i - 1, scale).0, true)
    decreases n - i
  {
    if n > i {
      RowsAfterShort(data, i, n - 1, scale);
    }
  }

  // ---------------------------------------------------------------------
  // Reading

  /** One step of Python's iteration over the lines of a text stream: the
      next line, with its newline when it has one, and the text after it;
      nothing once the text is used up. */
  function PyNextLine(s: string): (r: Option<(string, string)>)
    ensures r.None? <==> s == []
    ensures r.Some? ==> r.value.0 != [] && r.value.0 + r.value.1 == s
  {
    if s == [] then None else var l := ReadLine(s); Some((l.text, l.rest))
  }

  /** Where the header loop of `rtraj.__init__` stops: at the first line
      containing `**`, or at the end of the stream. */
  datatype Scan = Found(line: string, rest: string, header: string) | Exhausted(header: string)

  /** The header loop: every line before the `**` line is appended to the
      header text after a blank, without its newline. */
  function ScanHeader(s: string, header: string): (r: Scan)
    ensures r.Found? ==> Contains(r.line, "**")
    decreases |s|
  {
    match PyNextLine(s)
    case None => Exhausted(header)
    case Some((l, rest)) =>
      if Contains(l, "**") then Found(l, rest, header)
      else ScanHeader(rest, header + " " + ChompNewline(l))
  }

  /** Every token is one `=`-separated pair. */
  predicate PairTokens(toks: seq<string>) {
    forall i :: 0 <= i < |toks| ==> |Split(toks[i], "=")| == 2
  }

  /** The loop `for i in header.split(): k, v = i.split("="); d[k] = v`:
      a `ValueError` at the first token that is not exactly one pair. */
  function HeaderDict(toks: seq<string>, d: Dict): (r: Outcome<Dict>)
    requires DistinctKeys(d)
    ensures r.Ok? <==> PairTokens(toks)
    ensures r.Ok? ==> DistinctKeys(r.value)
    ensures !r.Ok? ==> r == Err("ValueError")
  {
    if toks == [] then Ok(d)
    else
      var kv := Split(toks[0], "=");
      assert forall i :: 0 < i < |toks| ==> toks[i] == toks[1..][i - 1];
      if |kv| != 2 then Err("ValueError") else HeaderDict(toks[1..], Put(d, kv[0], kv[1]))
  }

  /** `int(line.split()[-1])` on the `**` line, which `np.zeros((natoms, 3))`
      then needs to be a natural number. */
  function NatomsOf(line: string): (r: Outcome<nat>)
    ensures r.Ok? <==> PyFields(line) != [] && ParseInt(Last(PyFields(line))).Some?
                       && ParseInt(Last(PyFields(line))).value >= 0
    ensures r.Ok? ==> r.value == ParseInt(Last(PyFields(line))).value
    ensures !r.Ok? ==> r.Err?
  {
    var toks := PyFields(line);
    if toks == [] then Err("IndexError")
    else match ParseInt(Last(toks))
      case None => Err("ValueError")
      case Some(n) => if n < 0 then Err("ValueError") else Ok(n)
  }

  function Last(toks: seq<string>): string
    requires toks != []
  {
    toks[|toks| - 1]
  }

  /** What `rtraj.__init__` leaves behind: the unread text, the header text,
      the header dictionary, the divisor `prec` and the number of atoms. */
  datatype Opened = Opened(rest: string, header: string, dict: Dict, prec: real, natoms: nat)

  /** `rtraj.__init__` as written. At the `**` line it returns before the
      dictionary and the precision are read, so `prec` keeps its initial
      100 and the dictionary stays empty; a stream without the `**` line
      gets to the dictionary, and then fails, at the latest on the
      misspelt `self.headerdic`. */
  function OpenAsWritten(s: string): (r: Outcome<Opened>)
    ensures r.Ok? ==> r.value.prec == 100.0 && r.value.dict == []
    ensures Open(s).Ok? ==> r.Ok? && r.value.rest == Open(s).value.rest && r.value.header == Open(s).value.header
                            && r.value.natoms == Open(s).value.natoms
    ensures !ScanHeader(s, "").Found? ==> r.Err?
  {
    match ScanHeader(s, "")
    case Found(line, rest, header) =>
      (match NatomsOf(line)
       case Ok(n) => Ok(Opened(rest, header, [], 100.0, n))
       case Err(e) => Err(e)
       case Panic(e) => Panic(e))
    case Exhausted(header) =>
      if HeaderDict(PyFields(header), []).Ok? then Err("AttributeError") else Err("ValueError")
  }

  /** `rtraj.__init__` as evidently intended: the header loop ends at the
      `**` line, then the dictionary is read from the header and `prec` is
      `10^int(d.get("prec", "2"))`; a stream without the `**` line holds no
      trajectory. */
  function Open(s: string): (r: Outcome<Opened>)
    ensures r.Ok? ==> r.value.prec > 0.0 && DistinctKeys(r.value.dict)
    ensures r.Ok? ==> ScanHeader(s, "").Found? && r.value.rest == ScanHeader(s, "").rest
                      && r.value.header == ScanHeader(s, "").header
  {
    match ScanHeader(s, "")
    case Exhausted(_) => Err("EOFError")
    case Found(line, rest, header) =>
      match NatomsOf(line)
      case Err(e) => Err(e)
      case Panic(e) => Panic(e)
      case Ok(n) =>
        match HeaderDict(PyFields(header), [])
        case Ok(d) =>
          (match ParseInt(PrecText(d))
           case Some(e) => Ok(Opened(rest, header, d, PowTen(e), n))
           case None => Err("ValueError"))
        case Err(e) => Err(e)
        case Panic(e) => Panic(e)
  }

  /** `d["prec"]`, or "2" without it. */
  function PrecText(d: Dict): string {
    match Lookup(d, "prec") case Some(p) => p case None => "2"
  }

  /** How a call of `next` ends: the text left, the frame and the box after
      it, and the exception raised (none: a frame was completed). */
  datatype Scanned = Scanned(rest: string, frame: seq<real>, box: seq<real>, exc: Option<string>)

  /** `frame[r][c] = float(toks[c]) / prec`, with `frame` flattened row by
      row: the token must be there (`IndexError`), must parse (`ValueError`)
      and the frame must have a row `r` (`IndexError`). */
  function StoreCell(toks: seq<string>, r: nat, c: nat, frame: seq<real>, natoms: nat, prec: real,
                     parse: string -> Option<real>): (res: (seq<real>, Option<string>))
    requires c < 3 && |frame| == 3 * natoms && prec > 0.0
    ensures |res.0| == |frame|
    ensures res.1.None? <==> c < |toks| && parse(toks[c]).Some? && r < natoms
    ensures res.1.None? ==> res.0 == frame[3 * r + c := parse(toks[c]).value / prec]
    ensures res.1.Some? ==> res.0 == frame
  {
    if c >= |toks| then (frame, Some("IndexError"))
    else match parse(toks[c])
      case None => (frame, Some("ValueError"))
      case Some(v) => if r >= natoms then (frame, Some("IndexError")) else (frame[3 * r + c := v / prec], None)
  }

  /** The three assignments of one row, stopping at the first exception. */
  function StoreRow(toks: seq<string>, r: nat, frame: seq<real>, natoms: nat, prec: real,
                    parse: string -> Option<real>): (res: (seq<real>, Option<string>))
    requires |frame| == 3 * natoms && prec > 0.0
    ensures |res.0| == |frame|
  {
    var (f0, e0) := StoreCell(toks, r, 0, frame, natoms, prec, parse);
    if e0.Some? then (f0, e0) else
    var (f1, e1) := StoreCell(toks, r, 1, f0, natoms, prec, parse);
    if e1.Some? then (f1, e1) else
    StoreCell(toks, r, 2, f1, natoms, prec, parse)
  }

  /** `for i, v in enumerate(toks): box[i] = float(v)` from index `i` on:
      `ValueError` at a token that does not parse, `IndexError` once the box
      is full; the values before stay stored. */
  function FillBox(toks: seq<string>, i: nat, box: seq<real>, parse: string -> Option<real>): (r: (seq<real>, Option<string>))
    requires i <= |toks|
    ensures |r.0| == |box|
    decreases |toks| - i
  {
    if i == |toks| then (box, None)
    else match parse(toks[i])
      case None => (box, Some("ValueError"))
      case Some(v) => if i >= |box| then (box, Some("IndexError")) else FillBox(toks, i + 1, box[i := v], parse)
  }

  /** The line loop of `rtraj.next` from row `r` on: a line containing `*`
      ends the frame (and fills the box when the box has nine places and the
      line at least ten tokens), any other line is a row, stored unless
      `skip`; the end of the stream is an `EOFError`. */
  function ReadFrame(s: string, r: nat, skip: bool, frame: seq<real>, box: seq<real>, natoms: nat, prec: real,
                     parse: string -> Option<real>): (res: Scanned)
    requires |frame| == 3 * natoms && prec > 0.0
    ensures |res.frame| == |frame| && |res.box| == |box|
    decreases |s|
  {
    match PyNextLine(s)
    case None => Scanned(s, frame, box, Some("EOFError"))
    case Some((l, rest)) =>
      if Contains(l, "*") then
        var toks := PyFields(l);
        if |box| >= 9 && |toks| >= 10 then
          var (b, exc) := FillBox(toks[1..], 0, box, parse);
          Scanned(rest, frame, b, exc)
        else Scanned(rest, frame, box, None)
      else if skip then ReadFrame(rest, r, skip, frame, box, natoms, prec, parse)
      else
        var (f, exc) := StoreRow(PyFields(l), r, frame, natoms, prec, parse);
        if exc.Some? then Scanned(rest, f, box, exc) else ReadFrame(rest, r + 1, skip, f, box, natoms, prec, parse)
  }

  /** A read-mode trajectory, `rtraj`. */
  class Reader {
    /** The text not yet read from the decompressed stream. */
    var rest: string
    var framesRead: nat
    var readable: bool
    const header: string
    const dict: Dict
    const prec: real
    const natoms: nat
    /** `self.frame`: the one array every call of `next` fills and returns,
        row `r` at the places `3r`, `3r + 1` and `3r + 2`. */
    const frame: array<real>
    /** Python's `float` on a token. */
    const parse: string -> Option<real>

    predicate Valid() {
      frame.Length == 3 * natoms && prec > 0.0
    }

    /** What opening the stream established. */
    function State(): Opened
      reads this
    {
      Opened(rest, header, dict, prec, natoms)
    }

    /** The object `rtraj.__init__` builds once the header has been read:
        a zero frame of `natoms` rows. */
    constructor (o: Opened, parse: string -> Option<real>)
      requires o.prec > 0.0
      ensures State() == o && this.parse == parse && framesRead == 0 && readable && Valid()
      ensures fresh(frame) && frame[..] == seq(3 * o.natoms, _ => 0.0)
    {
      rest, header, dict, prec, natoms := o.rest, o.header, o.dict, o.prec, o.natoms;
      this.parse := parse;
      framesRead := 0;
      readable := true;
      frame := new real[3 * o.natoms](_ => 0.0);
    }

    /** `next(skip, box)`: reads frame lines into `frame` (and the box line
        into `box`) as `ReadFrame` says; after `close` it raises `EOFError`. */
    method Next(skip: bool, box: array<real>) returns (exc: Option<string>)
      requires Valid() && box != frame
      modifies this, frame, box
      ensures readable == old(readable)
      ensures !old(readable) ==> exc == Some("EOFError") && rest == old(rest) && framesRead == old(framesRead)
                                 && frame[..] == old(frame[..]) && box[..] == old(box[..])
      ensures old(readable) ==>
                var st := ReadFrame(old(rest), 0, skip, old(frame[..]), old(box[..]), natoms, prec, parse);
                rest == st.rest && frame[..] == st.frame && box[..] == st.box && exc == st.exc
                && framesRead == old(framesRead) + (if st.exc.None? then 1 else 0)
    {
      if !readable {
        return Some("EOFError");
      }
      ghost var goal := ReadFrame(rest, 0, skip, frame[..], box[..], natoms, prec, parse);
      var r := 0;
      while rest != []
        invariant ReadFrame(rest, r, skip, frame[..], box[..], natoms, prec, parse) == goal
        invariant readable && framesRead == old(framesRead)
        decreases |rest|
      {
        var l := ReadLine(rest);
        rest := l.rest;
        if Contains(l.text, "*") {
          var toks := PyFields(l.text);
          exc := None;
          if box.Length >= 9 && |toks| >= 10 {
            exc := FillBoxFrom(toks[1..], box);
          }
          if exc.None? {
            framesRead := framesRead + 1;
          }
          return;
        }
        if !skip {
          var toks := PyFields(l.text);
          exc := Store(toks, r, 0);
          if exc.None? {
            exc := Store(toks, r, 1);
          }
          if exc.None? {
            exc := Store(toks, r, 2);
          }
          if exc.Some? {
            return;
          }
          r := r + 1;
        }
      }
      exc := Some("EOFError");
    }

    /** `self.frame[r][c] = float(toks[c]) / self.prec`. */
    method Store(toks: seq<string>, r: nat, c: nat) returns (exc: Option<string>)
      requires Valid() && c < 3
      modifies frame
      ensures (frame[..], exc) == StoreCell(toks, r, c, old(frame[..]), natoms, prec, parse)
    {
      if c >= |toks| {
        return Some("IndexError");
      }
      var v := parse(toks[c]);
      if v.None? {
        return Some("ValueError");
      }
      if r >= natoms {
        return Some("IndexError");
      }
      frame[3 * r + c] := v.value / prec;
      exc := None;
    }

    /** The box loop of `next`. */
    method FillBoxFrom(toks: seq<string>, box: array<real>) returns (exc: Option<string>)
      modifies box
      ensures (box[..], exc) == FillBox(toks, 0, old(box[..]), parse)
    {
      var i := 0;
      while i < |toks|
        invariant 0 <= i <= |toks|
        invariant FillBox(toks, i, box[..], parse) == FillBox(toks, 0, old(box[..]), parse)
      {
        var v := parse(toks[i]);
        if v.None? {
          return Some("ValueError");
        }
        if i >= box.Length {
          return Some("IndexError");
        }
        box[i] := v.value;
        i := i + 1;
      }
      exc := None;
    }

    /** `close()`: only the first call closes the stream; the frame count
        and the unread text stay. */
    method Close()
      modifies this
      ensures !readable && rest == old(rest) && framesRead == old(framesRead)
    {
      if readable {
        readable := false;
      }
    }
  }

  /** `rtraj(filename)` on a stream that holds `s`, as `Open` says. */
  method OpenReader(s: string, parse: string -> Option<real>) returns (r: Outcome<Reader>)
    ensures r.Ok? <==> Open(s).Ok?
    ensures !r.Ok? ==> r.Err? && Open(s).Err? && r.msg == Open(s).msg
    ensures r.Ok? ==> fresh(r.value) && fresh(r.value.frame) && r.value.State() == Open(s).value
                      && r.value.parse == parse && r.value.framesRead == 0 && r.value.readable
                      && r.value.Valid() && r.value.frame[..] == seq(3 * Open(s).value.natoms, _ => 0.0)
  {
    var rest, header := s, "";
    while rest != []
      invariant ScanHeader(rest, header) == ScanHeader(s, "")
      decreases |rest|
    {
      var l := ReadLine(rest);
      if Contains(l.text, "**") {
        var n := NatomsOf(l.text);
        if !n.Ok? {
          return Err(n.msg);
        }
        var toks := PyFields(header);
        var d: Dict := [];
        var i := 0;
        while i < |toks|
          invariant 0 <= i <= |toks| && DistinctKeys(d)
          invariant HeaderDict(toks[i..], d) == HeaderDict(toks, [])
        {
          var kv := Split(toks[i], "=");
          assert toks[i..][1..] == toks[i + 1..];
          if |kv| != 2 {
            return Err("ValueError");
          }
          d := Put(d, kv[0], kv[1]);
          i := i + 1;
        }
        var e := ParseInt(PrecText(d));
        if e.None? {
          return Err("ValueError");
        }
        var reader := new Reader(Opened(l.rest, header, d, PowTen(e.value), n.value), parse);
        return Ok(reader);
      }
      header := header + " " + ChompNewline(l.text);
      rest := l.rest;
    }
    return Err("EOFError");
  }

  // ---------------------------------------------------------------------
  // Reading back what the writer wrote: the header

  /** A key or value the reader gets back: no blank (`str.split()` would
      cut it), no `=` and no `*`. */
  predicate Plain(s: string) {
    NoSep(s, PySpace) && '=' !in s && '*' !in s
  }

  predicate PlainDict(d: Dict) {
    forall i :: 0 <= i < |d| ==> Plain(d[i].0) && Plain(d[i].1)
  }

  /** The `k=v` tokens of a dictionary's header lines. */
  function Entries(d: Dict): (r: seq<string>)
    ensures |r| == |d| && forall i :: 0 <= i < |d| ==> r[i] == d[i].0 + "=" + d[i].1
  {
    seq(|d|, i requires 0 <= i < |d| => d[i].0 + "=" + d[i].1)
  }

  /** Words each behind one blank, as the header loop accumulates them. */
  function Spaced(ws: seq<string>): string {
    if ws == [] then "" else " " + ws[0] + Spaced(ws[1..])
  }

  /** A `k=v` token of plain parts is one field, holds no `*` and no
      newline, and splits on `=` into the key and the value. */
  lemma EntryWord(k: string, v: string)
    requires Plain(k) && Plain(v)
    ensures var e := k + "=" + v;
            e != [] && NoSep(e, PySpace) && '*' !in e && '\n' !in e && Split(e, "=") == [k, v]
  {
    var e := k + "=" + v;
    assert forall i :: 0 <= i < |e| ==> e[i] == if i < |k| then k[i] else if i == |k| then '=' else v[i - |k| - 1];
    assert Join([k, v], "=") == e by {
      assert [k, v][1..] == [v];
    }
    SplitOfJoin([k, v], "=");
  }

  /** The header text splits back into the tokens it was built from. */
  lemma {:induction false} SpacedFields(ws: seq<string>)
    requires forall i :: 0 <= i < |ws| ==> ws[i] != [] && NoSep(ws[i], PySpace)
    ensures PyFields(Spaced(ws)) == ws
    decreases |ws|
  {
    if ws != [] {
      var x := Spaced(ws[1..]);
      assert Spaced(ws) == " " + (ws[0] + x);
      assert x == [] || x[0] == ' ';
      FieldsOfSeparators(" ", ws[0] + x, PySpace);
      FieldsCons(ws[0], x, PySpace);
      SpacedFields(ws[1..]);
      assert [ws[0]] + ws[1..] == ws;
    }
  }

  /** The header loop reads the `k=v` lines of a plain dictionary as the
      blank-separated tokens of its text. */
  lemma {:induction false} ScanDictLines(d: Dict, h: string, tail: string)
    requires PlainDict(d)
    ensures ScanHeader(DictLines(d) + tail, h) == ScanHeader(tail, h + Spaced(Entries(d)))
    decreases |d|
  {
    if d == [] {
      assert DictLines(d) + tail == tail;
      assert h + Spaced(Entries(d)) == h;
    } else {
      var e := d[0].0 + "=" + d[0].1;
      EntryWord(d[0].0, d[0].1);
      var x := DictLines(d[1..]) + tail;
      assert DictLine(d[0]) == e + "\n";
      AppendAssoc(DictLine(d[0]), DictLines(d[1..]), tail);
      ScanPlainLine(e, x, h);
      assert PlainDict(d[1..]) by {
        assert forall i :: 0 <= i < |d[1..]| ==> d[1..][i] == d[i + 1];
      }
      ScanDictLines(d[1..], h + " " + e, tail);
      var sp := Spaced(Entries(d[1..]));
      assert Entries(d[1..]) == Entries(d)[1..];
      assert Spaced(Entries(d)) == " " + e + sp;
      AppendAssoc(h, " ", e);
      AppendAssoc(h, " " + e, sp);
    }
  }

  /** A line without `*` joins the header text. */
  lemma ScanPlainLine(e: string, x: string, h: string)
    requires '\n' !in e && '*' !in e
    ensures ScanHeader(e + "\n" + x, h) == ScanHeader(x, h + " " + e)
  {
    ReadLineOf(e, x);
    assert '*' !in e + "\n";
    FindAbsent(e + "\n", "**");
    assert ChompNewline(e + "\n") == e;
  }

  /** The `**` line ends the header loop and names the number of atoms. */
  lemma SentinelRead(natoms: nat, h: string, rest: string)
    ensures ScanHeader(SentinelLine(natoms) + rest, h) == Found(SentinelLine(natoms), rest, h)
    ensures NatomsOf(SentinelLine(natoms)) == Ok(natoms)
  {
    var w := IntText(natoms);
    IntTextWord(natoms);
    NumberWordPlain(w);
    var l := "** " + w;
    assert SentinelLine(natoms) == l + "\n";
    SentinelScan(l, h, rest);
    SentinelFields(w);
    ParseIntText(natoms);
  }

  lemma SentinelScan(l: string, h: string, rest: string)
    requires |l| >= 2 && l[..2] == "**" && '\n' !in l
    ensures ScanHeader(l + "\n" + rest, h) == Found(l + "\n", rest, h)
  {
    ReadLineOf(l, rest);
    var line := l + "\n";
    assert PyNextLine(line + rest) == Some((line, rest));
    assert line[..2] == "**";
    assert Find(line, "**") == Some(0);
  }

  lemma SentinelFields(w: string)
    requires NumberWord(w)
    ensures var l := "** " + w; |l| >= 2 && l[..2] == "**" && '\n' !in l
    ensures PyFields("** " + w + "\n") == ["**", w]
  {
    NumberWordPlain(w);
    var l := "** " + w;
    assert forall i :: 0 <= i < |l| ==> l[i] == if i < 3 then "** "[i] else w[i - 3];
    assert Join(["**", w], " ") == l by {
      assert ["**", w][1..] == [w];
    }
    assert "**" != [] && NoSep("**", PySpace);
    FieldsOfJoin(["**", w], ' ', "\n", PySpace);
  }

  /** Reading the tokens of a plain dictionary with distinct keys rebuilds
      the dictionary, order included. */
  lemma {:induction false} HeaderDictOfEntries(d: Dict, i: nat)
    requires DistinctKeys(d) && PlainDict(d) && i <= |d|
    ensures HeaderDict(Entries(d)[i..], d[..i]) == Ok(d)
    decreases |d| - i
  {
    assert DistinctKeys(d[..i]);
    if i == |d| {
      assert Entries(d)[i..] == [];
      assert d[..i] == d;
    } else {
      var ts := Entries(d)[i..];
      EntryWord(d[i].0, d[i].1);
      assert ts[0] == d[i].0 + "=" + d[i].1;
      assert ts[1..] == Entries(d)[i + 1..];
      assert forall j :: 0 <= j < i ==> d[..i][j].0 != d[i].0;
      assert d[..i] + [d[i]] == d[..i + 1];
      HeaderDictOfEntries(d, i + 1);
    }
  }

  /** Every key and value the writer puts in its header is plain when the
      caller's are. */
  lemma WriterDictPlain(d: Option<Dict>)
    requires d.Some? ==> DistinctKeys(d.value) && PlainDict(d.value)
    ensures PlainDict(WriterDict(d))
  {
    var w := WriterDict(d);
    assert Plain("prec") && Plain("1") by {
      assert forall c :: c in "prec" + "1" ==> 'a' <= c <= 'z' || c == '1';
    }
    forall i | 0 <= i < |w|
      ensures Plain(w[i].0) && Plain(w[i].1)
    {
      if w[i] != ("prec", "1") {
        assert w[i] in d.value;
      }
    }
  }

  /** The reader, as evidently intended, opens what the writer's
      constructor wrote: the same number of atoms, the same dictionary and
      the writer's scale as its divisor; the frames are left unread. */
  lemma {:induction false} HeaderRoundTrip(d: Option<Dict>, natoms: nat, rest: string)
    requires d.Some? ==> DistinctKeys(d.value) && PlainDict(d.value)
    ensures Open(HeaderText(WriterDict(d), natoms) + rest)
            == Ok(Opened(rest, Spaced(Entries(WriterDict(d))), WriterDict(d), WriterScale(d) as real, natoms))
  {
    var w := WriterDict(d);
    WriterDictPlain(d);
    var s := HeaderText(w, natoms) + rest;
    AppendAssoc(DictLines(w), SentinelLine(natoms), rest);
    ScanDictLines(w, "", SentinelLine(natoms) + rest);
    var h := Spaced(Entries(w));
    assert "" + h == h;
    SentinelRead(natoms, h, rest);
    assert ScanHeader(s, "") == Found(SentinelLine(natoms), rest, h);
    forall i | 0 <= i < |w|
      ensures Entries(w)[i] != [] && NoSep(Entries(w)[i], PySpace)
    {
      EntryWord(w[i].0, w[i].1);
    }
    SpacedFields(Entries(w));
    HeaderDictOfEntries(w, 0);
    assert Entries(w)[0..] == Entries(w) && w[..0] == [];
    var p := Lookup(w, "prec").value;
    assert PrecText(w) == p;
    assert ParseInt(p) == Some(DigitsValue(p));
  }

  /** The reader as written opens the same header with the divisor 100 and
      an empty dictionary, whatever precision the header names. */
  lemma {:induction false} HeaderAsWritten(d: Option<Dict>, natoms: nat, rest: string)
    requires d.Some? ==> DistinctKeys(d.value) && PlainDict(d.value)
    ensures OpenAsWritten(HeaderText(WriterDict(d), natoms) + rest)
            == Ok(Opened(rest, Spaced(Entries(WriterDict(d))), [], 100.0, natoms))
  {
    var w := WriterDict(d);
    WriterDictPlain(d);
    AppendAssoc(DictLines(w), SentinelLine(natoms), rest);
    ScanDictLines(w, "", SentinelLine(natoms) + rest);
    var h := Spaced(Entries(w));
    assert "" + h == h;
    SentinelRead(natoms, h, rest);
  }

  // ---------------------------------------------------------------------
  // Reading back what the writer wrote: the frames

  /** Words that hold no blank, newline or `*`: what a row or a box line is
      made of. */
  predicate PlainWords(ws: seq<string>) {
    forall i :: 0 <= i < |ws| ==> ws[i] != [] && NoSep(ws[i], PySpace) && '*' !in ws[i] && '\n' !in ws[i]
  }

  /** A line of blank-separated plain words ends at its newline. */
  lemma WordsLineNext(ws: seq<string>, s: string)
    requires PlainWords(ws)
    ensures PyNextLine(Join(ws, " ") + "\n" + s) == Some((Join(ws, " ") + "\n", s))
  {
    JoinAvoids(ws, " ", '\n');
    ReadLineOf(Join(ws, " "), s);
  }

  /** A line of blank-separated plain words holds no `*`. */
  lemma WordsLineStarless(ws: seq<string>)
    requires PlainWords(ws)
    ensures !Contains(Join(ws, " ") + "\n", "*")
  {
    var l := Join(ws, " ");
    JoinAvoids(ws, " ", '*');
    assert '*' !in l + "\n";
    FindAbsent(l + "\n", "*");
  }

  /** A line of blank-separated plain words splits back into the words. */
  lemma WordsLineFields(ws: seq<string>)
    requires PlainWords(ws)
    ensures PyFields(Join(ws, " ") + "\n") == ws
  {
    FieldsOfJoin(ws, ' ', "\n", PySpace);
  }

  /** The words of a row hold no blank, newline or `*`. */
  lemma RowWordsPlain(v: seq<real>, scale: nat)
    requires |v| >= 3
    ensures var ws := RowWords(v, scale);
            PlainWords(ws)
  {
    var ws := RowWords(v, scale);
    forall c | 0 <= c < 3
      ensures ws[c] != [] && NoSep(ws[c], PySpace) && '*' !in ws[c] && '\n' !in ws[c]
    {
      IntTextWord(Quantize(v[c], scale));
      NumberWordPlain(ws[c]);
    }
  }

  /** A row line ends at its newline, holds no `*` and splits into its
      three words. */
  lemma RowLine(v: seq<real>, scale: nat, s: string)
    requires |v| >= 3
    ensures PyNextLine(RowText(v, scale) + s) == Some((RowText(v, scale), s))
    ensures !Contains(RowText(v, scale), "*")
    ensures PyFields(RowText(v, scale)) == RowWords(v, scale)
  {
    RowWordsPlain(v, scale);
    WordsLineNext(RowWords(v, scale), s);
    WordsLineStarless(RowWords(v, scale));
    WordsLineFields(RowWords(v, scale));
  }

  /** The frame with row `r` set to the read-back values of `v`. */
  function StoredRow(frame: seq<real>, r: nat, v: seq<real>, scale: nat, prec: real): (f: seq<real>)
    requires |v| >= 3 && 3 * r + 3 <= |frame| && prec > 0.0
    ensures |f| == |frame|
    ensures forall c :: 0 <= c < 3 ==> f[3 * r + c] == Quantize(v[c], scale) as real / prec
    ensures forall j :: 0 <= j < |frame| && (j < 3 * r || j >= 3 * r + 3) ==> f[j] == frame[j]
  {
    frame[3 * r := Quantize(v[0], scale) as real / prec]
         [3 * r + 1 := Quantize(v[1], scale) as real / prec]
         [3 * r + 2 := Quantize(v[2], scale) as real / prec]
  }

  /** Reading one written row stores its three values as `round(x * scale) / prec`. */
  lemma RowRead(v: seq<real>, scale: nat, s: string, r: nat, frame: seq<real>, box: seq<real>,
                natoms: nat, prec: real, parse: string -> Option<real>)
    requires |v| >= 3 && |frame| == 3 * natoms && prec > 0.0 && ReadsDecimals(parse) && r < natoms
    ensures ReadFrame(RowText(v, scale) + s, r, false, frame, box, natoms, prec, parse)
            == ReadFrame(s, r + 1, false, StoredRow(frame, r, v, scale, prec), box, natoms, prec, parse)
  {
    RowLine(v, scale, s);
    var ws := RowWords(v, scale);
    ParseIntDecimal(parse, Quantize(v[0], scale));
    ParseIntDecimal(parse, Quantize(v[1], scale));
    ParseIntDecimal(parse, Quantize(v[2], scale));
    assert StoreRow(ws, r, frame, natoms, prec, parse) == (StoredRow(frame, r, v, scale, prec), None);
  }

  /** With `skip`, a written row is passed over. */
  lemma RowSkip(v: seq<real>, scale: nat, s: string, r: nat, frame: seq<real>, box: seq<real>,
                natoms: nat, prec: real, parse: string -> Option<real>)
    requires |v| >= 3 && |frame| == 3 * natoms && prec > 0.0
    ensures ReadFrame(RowText(v, scale) + s, r, true, frame, box, natoms, prec, parse)
            == ReadFrame(s, r, true, frame, box, natoms, prec, parse)
  {
    RowLine(v, scale, s);
  }

  /** The rows of `RowsText(rows[i..])` put on a stream after `RowsText(rows[..i])`. */
  lemma RowsTextFrom(rows: seq<seq<real>>, i: nat, scale: nat)
    requires Rows3(rows) && i < |rows|
    ensures Rows3(rows[i..]) && Rows3(rows[i + 1..])
    ensures RowsText(rows[i..], scale) == RowText(rows[i], scale) + RowsText(rows[i + 1..], scale)
  {
    assert rows[i..][0] == rows[i];
    assert rows[i..][1..] == rows[i + 1..];
  }

  /** Reading the written row `i` stores it and goes on to the next. */
  lemma RowsReadStep(rows: seq<seq<real>>, i: nat, scale: nat, tail: string, frame: seq<real>,
                     box: seq<real>, prec: real, parse: string -> Option<real>)
    requires Rows3(rows) && i < |rows| && |frame| == 3 * |rows| && prec > 0.0 && ReadsDecimals(parse)
    ensures Rows3(rows[i..]) && Rows3(rows[i + 1..]) && |rows[i]| >= 3
    ensures ReadFrame(RowsText(rows[i..], scale) + tail, i, false, frame, box, |rows|, prec, parse)
            == ReadFrame(RowsText(rows[i + 1..], scale) + tail, i + 1, false, StoredRow(frame, i, rows[i], scale, prec),
                         box, |rows|, prec, parse)
  {
    RowsTextFrom(rows, i, scale);
    var t := RowsText(rows[i + 1..], scale);
    AppendAssoc(RowText(rows[i], scale), t, tail);
    RowRead(rows[i], scale, t + tail, i, frame, box, |rows|, prec, parse);
  }

  /** Reading written rows from row `i` on stores every one of them and
      leaves the rows before `i` alone. */
  lemma {:induction false} RowsRead(rows: seq<seq<real>>, i: nat, scale: nat, tail: string, frame: seq<real>,
                                    box: seq<real>, prec: real, parse: string -> Option<real>) returns (f: seq<real>)
    requires Rows3(rows) && i <= |rows| && |frame| == 3 * |rows| && prec > 0.0 && ReadsDecimals(parse)
    ensures Rows3(rows[i..]) && |f| == |frame|
    ensures forall j :: 0 <= j < 3 * i ==> f[j] == frame[j]
    ensures forall r, c :: i <= r < |rows| && 0 <= c < 3 ==> f[3 * r + c] == Quantize(rows[r][c], scale) as real / prec
    ensures ReadFrame(RowsText(rows[i..], scale) + tail, i, false, frame, box, |rows|, prec, parse)
            == ReadFrame(tail, |rows|, false, f, box, |rows|, prec, parse)
    decreases |rows| - i
  {
    if i == |rows| {
      f := frame;
      assert rows[i..] == [];
      assert RowsText(rows[i..], scale) + tail == tail;
    } else {
      RowsReadStep(rows, i, scale, tail, frame, box, prec, parse);
      var f1 := StoredRow(frame, i, rows[i], scale, prec);
      f := RowsRead(rows, i + 1, scale, tail, f1, box, prec, parse);
      forall r, c | i <= r < |rows| && 0 <= c < 3
        ensures f[3 * r + c] == Quantize(rows[r][c], scale) as real / prec
      {
        if r == i {
          assert f[3 * r + c] == f1[3 * r + c];
          assert rows[r][c] == rows[i][c];
        }
      }
    }
  }

  /** With `skip`, written rows are passed over. */
  lemma {:induction false} RowsSkip(rows: seq<seq<real>>, scale: nat, tail: string, r: nat, frame: seq<real>,
                                    box: seq<real>, natoms: nat, prec: real, parse: string -> Option<real>)
    requires Rows3(rows) && |frame| == 3 * natoms && prec > 0.0
    ensures ReadFrame(RowsText(rows, scale) + tail, r, true, frame, box, natoms, prec, parse)
            == ReadFrame(tail, r, true, frame, box, natoms, prec, parse)
    decreases |rows|
  {
    if rows == [] {
      assert RowsText(rows, scale) + tail == tail;
    } else {
      RowsTextFrom(rows, 0, scale);
      assert rows[0..] == rows;
      var t := RowsText(rows[1..], scale);
      AppendAssoc(RowText(rows[0], scale), t, tail);
      RowSkip(rows[0], scale, t + tail, r, frame, box, natoms, prec, parse);
      RowsSkip(rows[1..], scale, tail, r, frame, box, natoms, prec, parse);
    }
  }

  /** The box after reading a written box line: its first nine places hold
      the written values rounded to three decimals, when both the written
      box and the reader's have nine places; otherwise it is unchanged. */
  function BoxBack(b: seq<real>, box: seq<real>): (r: seq<real>)
    ensures |r| == |box|
    ensures |b| >= 9 && |box| >= 9 ==> forall j :: 0 <= j < 9 ==> r[j] == FixedValue(b[j], 3)
    ensures forall j :: 0 <= j < |box| && (j >= 9 || |b| < 9 || |box| < 9) ==> r[j] == box[j]
  {
    if |b| >= 9 && |box| >= 9 then seq(|box|, j requires 0 <= j < |box| => if j < 9 then FixedValue(b[j], 3) else box[j])
    else box
  }

  /** The nine `%.3f` words of a box line, without their padding. */
  function FixedWords(b: seq<real>): (r: seq<string>)
    requires |b| >= 9
    ensures |r| == 9 && forall j :: 0 <= j < 9 ==> r[j] == FixedText(b[j], 3)
  {
    seq(9, j requires 0 <= j < 9 => FixedText(b[j], 3))
  }

  /** Filling the box from the written words, from place `i` on. */
  lemma {:induction false} FillBoxRead(b: seq<real>, i: nat, box: seq<real>, parse: string -> Option<real>)
    requires |b| >= 9 && |box| >= 9 && i <= 9 && ReadsDecimals(parse)
    ensures FillBox(FixedWords(b), i, box, parse).1 == None
    ensures forall j :: 0 <= j < |box| ==>
              FillBox(FixedWords(b), i, box, parse).0[j] == if i <= j < 9 then FixedValue(b[j], 3) else box[j]
    decreases 9 - i
  {
    if i < 9 {
      ParseFixedValue(parse, b[i], 3);
      FillBoxRead(b, i + 1, box[i := FixedValue(b[i], 3)], parse);
    }
  }

  /** The blanks `%5.3f` puts before each of the nine box values. */
  function BoxPads(b: seq<real>): (r: seq<string>)
    requires |b| >= 9
    ensures |r| == 9 && forall j :: 0 <= j < 9 ==> AllSep(r[j], PySpace)
  {
    BlanksSep();
    seq(9, j requires 0 <= j < 9 => Repeat(' ', |BoxNumber(b[j])| - |FixedText(b[j], 3)|))
  }

  /** Blanks are all separators to `str.split()`. */
  lemma BlanksSep()
    ensures forall n: nat :: AllSep(Repeat(' ', n), PySpace)
  {
    forall n: nat
      ensures AllSep(Repeat(' ', n), PySpace)
    {
      assert PySpace(' ');
    }
  }

  /** Each field of a box line is its padding and its plain number word. */
  lemma BoxLineParts(b: seq<real>)
    requires |b| >= 9
    ensures forall j :: 0 <= j < 9 ==> BoxFields(b)[j] == BoxPads(b)[j] + FixedWords(b)[j]
    ensures forall j :: 0 <= j < 9 ==> FixedWords(b)[j] != [] && NoSep(FixedWords(b)[j], PySpace)
    ensures forall j :: 0 <= j < 9 ==> '\n' !in BoxFields(b)[j]
  {
    forall j | 0 <= j < 9
      ensures BoxFields(b)[j] == BoxPads(b)[j] + FixedWords(b)[j]
      ensures FixedWords(b)[j] != [] && NoSep(FixedWords(b)[j], PySpace)
      ensures '\n' !in BoxFields(b)[j]
    {
      PadLeftSplit(FixedText(b[j], 3), 5);
      FixedTextWord(b[j], 3);
      NumberWordPlain(FixedText(b[j], 3));
    }
  }

  /** The words of a box line, `*` and the fields, as padded words. */
  lemma BoxWordsPadded(b: seq<real>)
    requires |b| >= 9
    ensures ["*"] + BoxFields(b) == Padded([""] + BoxPads(b), ["*"] + FixedWords(b))
  {
    BoxLineParts(b);
    var ws := ["*"] + BoxFields(b);
    var p := Padded([""] + BoxPads(b), ["*"] + FixedWords(b));
    forall j | 0 <= j < 10
      ensures ws[j] == p[j]
    {
      if j == 0 {
        assert p[0] == "" + "*";
      } else {
        assert ws[j] == BoxFields(b)[j - 1];
        assert p[j] == BoxPads(b)[j - 1] + FixedWords(b)[j - 1];
      }
    }
  }

  /** The words of a written box line: the `*` and the nine values. */
  lemma BoxLineFields(b: seq<real>)
    requires |b| >= 9
    ensures PyFields(BoxText(b)) == ["*"] + FixedWords(b)
  {
    BoxLineParts(b);
    BoxWordsPadded(b);
    assert "*" != [] && NoSep("*", PySpace) && AllSep("", PySpace);
    FieldsOfPaddedJoin([""] + BoxPads(b), ["*"] + FixedWords(b), ' ', "\n", PySpace);
  }

  /** A line of `*` and fields that hold no newline ends at its newline and
      contains `*`. */
  lemma StarLineNext(fs: seq<string>, tail: string)
    requires forall j :: 0 <= j < |fs| ==> '\n' !in fs[j]
    ensures PyNextLine(Join(["*"] + fs, " ") + "\n" + tail) == Some((Join(["*"] + fs, " ") + "\n", tail))
    ensures Contains(Join(["*"] + fs, " ") + "\n", "*")
  {
    var ws := ["*"] + fs;
    var l := Join(ws, " ");
    forall j | 0 <= j < |ws|
      ensures '\n' !in ws[j]
    {
      if j > 0 {
        assert ws[j] == fs[j - 1];
      }
    }
    JoinAvoids(ws, " ", '\n');
    ReadLineOf(l, tail);
    if fs != [] {
      JoinCons("*", fs, " ");
    }
    assert (l + "\n")[..1] == "*";
    assert Find(l + "\n", "*") == Some(0);
  }

  /** A written box line ends at its newline and contains `*`. */
  lemma BoxLineNext(b: seq<real>, tail: string)
    ensures PyNextLine(BoxText(b) + tail) == Some((BoxText(b), tail))
    ensures Contains(BoxText(b), "*")
  {
    if |b| >= 9 {
      BoxLineParts(b);
      StarLineNext(BoxFields(b), tail);
    } else {
      StarLineNext([], tail);
      assert Join(["*"] + [], " ") + "\n" == "*\n";
    }
  }

  /** A line containing `*` ends the frame, whatever row the reader is at:
      the box is filled from its tokens when it has nine places and the
      line at least ten tokens. */
  lemma StarLineRead(l: string, tail: string, r: nat, skip: bool, frame: seq<real>, box: seq<real>,
                     natoms: nat, prec: real, parse: string -> Option<real>)
    requires |frame| == 3 * natoms && prec > 0.0
    requires PyNextLine(l + tail) == Some((l, tail)) && Contains(l, "*")
    ensures var toks := PyFields(l);
            ReadFrame(l + tail, r, skip, frame, box, natoms, prec, parse)
            == if |box| >= 9 && |toks| >= 10 then Scanned(tail, frame, FillBox(toks[1..], 0, box, parse).0, FillBox(toks[1..], 0, box, parse).1)
               else Scanned(tail, frame, box, None)
  {
  }

  /** The tokens of a written box line after its `*` fill the box as
      `BoxBack` says. */
  lemma BoxFill(b: seq<real>, box: seq<real>, parse: string -> Option<real>)
    requires |b| >= 9 && |box| >= 9 && ReadsDecimals(parse)
    ensures |PyFields(BoxText(b))| == 10
    ensures FillBox(PyFields(BoxText(b))[1..], 0, box, parse) == (BoxBack(b, box), None)
  {
    BoxLineFields(b);
    var toks := PyFields(BoxText(b));
    assert toks[1..] == FixedWords(b);
    BoxFillWords(b, box, parse);
  }

  /** The nine written words fill the box as `BoxBack` says. */
  lemma BoxFillWords(b: seq<real>, box: seq<real>, parse: string -> Option<real>)
    requires |b| >= 9 && |box| >= 9 && ReadsDecimals(parse)
    ensures FillBox(FixedWords(b), 0, box, parse) == (BoxBack(b, box), None)
  {
    var f := FillBox(FixedWords(b), 0, box, parse);
    var want := BoxBack(b, box);
    FillBoxRead(b, 0, box, parse);
    forall j | 0 <= j < |box|
      ensures f.0[j] == want[j]
    {
    }
    assert f.0 == want;
  }

  /** The bare terminator `*` is one token. */
  lemma BareFields(b: seq<real>)
    requires |b| < 9
    ensures PyFields(BoxText(b)) == ["*"]
  {
    assert BoxText(b) == "*\n";
    assert NoSep("*", PySpace);
    FieldsCons("*", "\n", PySpace);
    FieldsOfSeparators("\n", [], PySpace);
    assert "\n" + [] == "\n";
  }

  /** Reading a written box line ends the frame and fills the box as
      `BoxBack` says. */
  lemma BoxRead(b: seq<real>, tail: string, r: nat, skip: bool, frame: seq<real>, box: seq<real>,
                natoms: nat, prec: real, parse: string -> Option<real>)
    requires |frame| == 3 * natoms && prec > 0.0 && ReadsDecimals(parse)
    ensures ReadFrame(BoxText(b) + tail, r, skip, frame, box, natoms, prec, parse)
            == Scanned(tail, frame, BoxBack(b, box), None)
  {
    BoxLineNext(b, tail);
    StarLineRead(BoxText(b), tail, r, skip, frame, box, natoms, prec, parse);
    if |b| < 9 {
      BareFields(b);
    } else if |box| >= 9 {
      BoxFill(b, box, parse);
    }
  }

  /** The reader reads a frame the writer wrote: every row of it, as
      `round(x * scale) / prec` (a reader whose `prec` is the writer's scale
      gets each coordinate back to within half a unit of the last written
      digit), the box as `BoxBack` says, and nothing after the frame. */
  lemma FrameRoundTrip(rows: seq<seq<real>>, b: seq<real>, tail: string, frame: seq<real>, box: seq<real>,
                       scale: nat, prec: real, parse: string -> Option<real>)
    requires Rows3(rows) && |frame| == 3 * |rows| && prec > 0.0 && ReadsDecimals(parse)
    ensures var st := ReadFrame(RowsText(rows, scale) + BoxText(b) + tail, 0, false, frame, box, |rows|, prec, parse);
            st.rest == tail && st.exc.None? && st.box == BoxBack(b, box)
            && forall r, c :: 0 <= r < |rows| && 0 <= c < 3 ==> st.frame[3 * r + c] == Quantize(rows[r][c], scale) as real / prec
  {
    AppendAssoc(RowsText(rows, scale), BoxText(b), tail);
    assert rows[0..] == rows;
    var f := RowsRead(rows, 0, scale, BoxText(b) + tail, frame, box, prec, parse);
    BoxRead(b, tail, |rows|, false, f, box, |rows|, prec, parse);
  }

  /** With `skip` the frame is passed over: the frame array keeps its
      values, the box is still read. */
  lemma FrameSkipRoundTrip(rows: seq<seq<real>>, b: seq<real>, tail: string, frame: seq<real>, box: seq<real>,
                           scale: nat, prec: real, parse: string -> Option<real>)
    requires Rows3(rows) && |frame| == 3 * |rows| && prec > 0.0 && ReadsDecimals(parse)
    ensures ReadFrame(RowsText(rows, scale) + BoxText(b) + tail, 0, true, frame, box, |rows|, prec, parse)
            == Scanned(tail, frame, BoxBack(b, box), None)
  {
    AppendAssoc(RowsText(rows, scale), BoxText(b), tail);
    RowsSkip(rows, scale, BoxText(b) + tail, 0, frame, box, |rows|, prec, parse);
    BoxRead(b, tail, 0, true, frame, box, |rows|, prec, parse);
  }

  /** A coordinate written at scale `scale` and divided back by the same
      scale is within half a unit of the last written digit. */
  lemma QuantizeClose(x: real, scale: nat)
    requires scale > 0
    ensures var y := Quantize(x, scale) as real / scale as real;
            y - 1.0 / (2.0 * scale as real) <= x <= y + 1.0 / (2.0 * scale as real)
  {
    var n := Quantize(x, scale);
    assert (n as real) - 0.5 <= x * (scale as real);
    assert x * (scale as real) <= (n as real) + 0.5;
    HalfUnit(x, n as real, scale as real);
  }

  /** `wnext` writes a whole frame and raises nothing: there are rows for
      all atoms, the first row and every row written has three columns. */
  predicate Writable(data: seq<seq<real>>, natoms: nat) {
    natoms <= |data| && data != [] && |data[0]| >= 3 && forall r :: 0 <= r < natoms ==> |data[r]| >= 3
  }

  /** `Writable` is exactly when `wnext` raises nothing, and then it writes
      the rows for the atoms and the terminator. */
  lemma WritableWrite(data: seq<seq<real>>, b: seq<real>, natoms: nat, scale: nat)
    ensures FrameWrite(data, b, natoms, scale).1.None? <==> Writable(data, natoms)
    ensures Writable(data, natoms) ==> FrameWrite(data, b, natoms, scale).0 == RowsText(data[..natoms], scale) + BoxText(b)
  {
    assert Max0(natoms) == natoms;
    if natoms <= |data| {
      var rows := data[..natoms];
      assert forall r :: 0 <= r < natoms ==> rows[r] == data[r];
      assert Rows3(rows) <==> forall r :: 0 <= r < natoms ==> |data[r]| >= 3;
    }
  }

  /** One frame as `wnext` writes it, when it raised nothing, reads back
      through `next`: row `r` as `round(x * scale) / prec`, the box as
      `BoxBack` says, and the stream left just after the frame. */
  lemma WrittenFrameReads(data: seq<seq<real>>, b: seq<real>, natoms: nat, scale: nat, tail: string,
                          frame: seq<real>, box: seq<real>, prec: real, parse: string -> Option<real>)
    requires Writable(data, natoms)
    requires |frame| == 3 * natoms && prec > 0.0 && ReadsDecimals(parse)
    ensures var st := ReadFrame(FrameWrite(data, b, natoms, scale).0 + tail, 0, false, frame, box, natoms, prec, parse);
            st.rest == tail && st.exc.None? && st.box == BoxBack(b, box)
            && forall r, c :: 0 <= r < natoms && 0 <= c < 3 ==> st.frame[3 * r + c] == Quantize(data[r][c], scale) as real / prec
  {
    WritableWrite(data, b, natoms, scale);
    var rows := data[..natoms];
    assert forall r :: 0 <= r < natoms ==> rows[r] == data[r];
    FrameRoundTrip(rows, b, tail, frame, box, scale, prec, parse);
  }

  /** The whole round trip, with the reader as evidently intended: a
      trajectory opened on what the writer's constructor and one `wnext`
      wrote has the writer's number of atoms and scale, and its first
      `next` gives every coordinate back as `round(x * scale) / scale`. */
  lemma TrajectoryRoundTrip(d: Option<Dict>, natoms: nat, data: seq<seq<real>>, b: seq<real>, tail: string,
                            frame: seq<real>, box: seq<real>, parse: string -> Option<real>)
    requires d.Some? ==> DistinctKeys(d.value) && PlainDict(d.value)
    requires Writable(data, natoms)
    requires |frame| == 3 * natoms && ReadsDecimals(parse)
    ensures var o := Open(HeaderText(WriterDict(d), natoms) + FrameWrite(data, b, natoms, WriterScale(d)).0 + tail);
            o.Ok? && o.value.natoms == natoms && o.value.prec == WriterScale(d) as real
            && var st := ReadFrame(o.value.rest, 0, false, frame, box, natoms, o.value.prec, parse);
               st.rest == tail && st.exc.None? && st.box == BoxBack(b, box)
               && forall r, c :: 0 <= r < natoms && 0 <= c < 3
                    ==> st.frame[3 * r + c] == Quantize(data[r][c], WriterScale(d)) as real / WriterScale(d) as real
  {
    var t := FrameWrite(data, b, natoms, WriterScale(d)).0;
    AppendAssoc(HeaderText(WriterDict(d), natoms), t, tail);
    HeaderRoundTrip(d, natoms, t + tail);
    WrittenFrameReads(data, b, natoms, WriterScale(d), tail, frame, box, WriterScale(d) as real, parse);
  }

  /** The same round trip through the reader as written: it divides by 100
      whatever precision the header names. */
  lemma TrajectoryAsWritten(d: Option<Dict>, natoms: nat, data: seq<seq<real>>, b: seq<real>, tail: string,
                            frame: seq<real>, box: seq<real>, parse: string -> Option<real>)
    requires d.Some? ==> DistinctKeys(d.value) && PlainDict(d.value)
    requires Writable(data, natoms)
    requires |frame| == 3 * natoms && ReadsDecimals(parse)
    ensures var o := OpenAsWritten(HeaderText(WriterDict(d), natoms) + FrameWrite(data, b, natoms, WriterScale(d)).0 + tail);
            o.Ok? && o.value.natoms == natoms && o.value.prec == 100.0
            && var st := ReadFrame(o.value.rest, 0, false, frame, box, natoms, o.value.prec, parse);
               st.rest == tail && st.exc.None? && st.box == BoxBack(b, box)
               && forall r, c :: 0 <= r < natoms && 0 <= c < 3
                    ==> st.frame[3 * r + c] == Quantize(data[r][c], WriterScale(d)) as real / 100.0
  {
    var t := FrameWrite(data, b, natoms, WriterScale(d)).0;
    AppendAssoc(HeaderText(WriterDict(d), natoms), t, tail);
    HeaderAsWritten(d, natoms, t + tail);
    var o := OpenAsWritten(HeaderText(WriterDict(d), natoms) + t + tail);
    assert o.value.rest == t + tail && o.value.prec == 100.0 && o.value.natoms == natoms;
    WrittenFrameReads(data, b, natoms, WriterScale(d), tail, frame, box, 100.0, parse);
  }

  /** A trajectory written without a dictionary (precision 1, scale 10)
      with one atom at x = 1: the reader as written gives x = 0.1, the
      corrected one x = 1. */
  lemma PrecIgnoredExample(parse: string -> Option<real>)
    requires ReadsDecimals(parse)
    ensures var t := HeaderText(WriterDict(None), 1) + FrameWrite([[1.0, 0.0, 0.0]], [], 1, WriterScale(None)).0;
            var o := OpenAsWritten(t);
            var p := Open(t);
            o.Ok? && p.Ok?
            && ReadFrame(o.value.rest, 0, false, [0.0, 0.0, 0.0], [0.0], 1, o.value.prec, parse).frame[0] == 0.1
            && ReadFrame(p.value.rest, 0, false, [0.0, 0.0, 0.0], [0.0], 1, p.value.prec, parse).frame[0] == 1.0
  {
    var data := [[1.0, 0.0, 0.0]];
    assert WriterScale(None) == 10;
    assert Quantize(1.0, 10) == 10 by {
      RoundInteger(10);
    }
    TrajectoryAsWritten(None, 1, data, [], "", [0.0, 0.0, 0.0], [0.0], parse);
    TrajectoryRoundTrip(None, 1, data, [], "", [0.0, 0.0, 0.0], [0.0], parse);
    var t := HeaderText(WriterDict(None), 1) + FrameWrite(data, [], 1, 10).0;
    assert t + "" == t;
  }
}
