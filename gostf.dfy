/** The Go STF codec of `traj/stf/stf.go`. The writer emits one `k=v` line
    per header entry, the `** natoms` line, then per frame one line of three
    fixed-point numbers per atom and a `*` line. The reader parses the
    header into a map and reads one frame per `Next` into the caller's
    matrix. A stream is the text it carries once decompressed. */
module GoStf {
  import opened Wrappers
  import opened Text
  import opened Numbers

  /** One row of a `v3.Matrix`: the three coordinates of an atom. */
  datatype Vec3 = Vec3(x: real, y: real, z: real)

  /** Column `j` of a row, as `At(i, j)` reads it. */
  function Coord(v: Vec3, j: nat): real
    requires j < 3
  {
    if j == 0 then v.x else if j == 1 then v.y else v.z
  }

  /** Go's `int`, 64 bits wide on the platforms the code targets. */
  predicate IsInt64(n: int) {
    -0x8000_0000_0000_0000 <= n < 0x8000_0000_0000_0000
  }

  /** The run-time panic of a method call on a nil `error`. */
  const NilDereference := "runtime error: invalid memory address or nil pointer dereference"
  /** The run-time panic of a store into a nil map. */
  const NilMapWrite := "assignment to entry in nil map"

  // ---------------------------------------------------------------------
  // Writing

  /** The order in which one `range` over a Go map visits its keys: every
      key once. Go leaves that order unspecified, so it is a parameter. */
  predicate Ordering(order: seq<string>, m: map<string, string>) {
    (forall i, j :: 0 <= i < j < |order| ==> order[i] != order[j])
    && (forall i :: 0 <= i < |order| ==> order[i] in m)
    && (forall k :: k in m ==> k in order)
  }

  /** The `k=v` lines of `NewWriter`, in the order `order`. */
  function HeaderLines(m: map<string, string>, order: seq<string>): string
    requires forall i :: 0 <= i < |order| ==> order[i] in m
  {
    if order == [] then "" else order[0] + "=" + m[order[0]] + "\n" + HeaderLines(m, order[1..])
  }

  /** The `** natoms` line. */
  function SentinelLine(natoms: int): string {
    "** " + IntText(natoms) + "\n"
  }

  /** Everything `NewWriter` writes: the `k=v` lines when it is given a
      map, then the sentinel line. */
  function HeaderText(header: Option<map<string, string>>, order: seq<string>, natoms: int): string
    requires header.Some? ==> Ordering(order, header.value)
  {
    (if header.Some? then HeaderLines(header.value, order) else "") + SentinelLine(natoms)
  }

  /** The three `FormatFloat(x, 'f', 3, 64)` words of a row. */
  function RowWords(v: Vec3): (r: seq<string>)
    ensures |r| == 3 && forall j :: 0 <= j < 3 ==> r[j] == FixedText(Coord(v, j), 3)
  {
    seq(3, j requires 0 <= j < 3 => FixedText(Coord(v, j), 3))
  }

  /** One row as `WNext` writes it: the three words and `"\n"` joined by
      blanks, so a blank comes before the newline. */
  function RowText(v: Vec3): string {
    Join(RowWords(v) + ["\n"], " ")
  }

  function RowsText(rows: seq<Vec3>): string {
    if rows == [] then "" else RowText(rows[0]) + RowsText(rows[1..])
  }

  /** The words `WNext` joins for a row are the row's three words and the
      newline. */
  lemma RowTextWords(v: Vec3)
    ensures Join([FixedText(v.x, 3), FixedText(v.y, 3), FixedText(v.z, 3), "\n"], " ") == RowText(v)
  {
    assert [FixedText(v.x, 3), FixedText(v.y, 3), FixedText(v.z, 3), "\n"] == RowWords(v) + ["\n"];
  }

  /** Writing row `i` after `text`: the rows after it still to come. */
  lemma RowsTextStep(text: string, rows: seq<Vec3>, i: nat)
    requires i < |rows|
    ensures text + RowsText(rows[i..]) == (text + RowText(rows[i])) + RowsText(rows[i + 1..])
  {
    assert rows[i..][1..] == rows[i + 1..];
    AppendAssoc(text, RowText(rows[i]), RowsText(rows[i + 1..]));
  }

  /** A whole frame: its rows and the terminator. */
  function FrameText(rows: seq<Vec3>): string {
    RowsText(rows) + "*\n"
  }

  /** The error `WNext` returns before writing anything: a writer that is
      not (or no longer) writeable, a nil matrix, a matrix whose row count
      is not the writer's atom count. */
  function WriteError(writeable: bool, coord: Option<seq<Vec3>>, natoms: int): (r: Option<string>)
    ensures r.None? <==> writeable && coord.Some? && |coord.value| == natoms
  {
    if !writeable then Some("Traj object uninitialized to read")
    else if coord.None? then Some("Given nil coordinates")
    else if |coord.value| != natoms then
      Some(IntText(|coord.value|) + " coordinates given, but " + IntText(natoms) + " expected")
    else None
  }

  /** A write-mode trajectory, `StfW`. */
  class Writer {
    /** The text written to the compressed stream so far. */
    var out: string
    const natoms: int
    var writeable: bool

    /** `NewWriter(name, natoms, header)`: the header is written at once,
        its entries in the order of one `range` over the map. */
    constructor (natoms: int, header: Option<map<string, string>>, order: seq<string>)
      requires header.Some? ==> Ordering(order, header.value)
      ensures out == HeaderText(header, order, natoms) && this.natoms == natoms && writeable
    {
      this.natoms := natoms;
      writeable := true;
      var text := "";
      if header.Some? {
        var m := header.value;
        var i := 0;
        while i < |order|
          invariant 0 <= i <= |order|
          invariant text + HeaderLines(m, order[i..]) == HeaderLines(m, order)
        {
          assert order[i..][1..] == order[i + 1..];
          var line := order[i] + "=" + m[order[i]] + "\n";
          AppendAssoc(text, line, HeaderLines(m, order[i + 1..]));
          text := text + line;
          i := i + 1;
        }
        assert order[i..] == [] && text + "" == text;
      }
      out := text + SentinelLine(natoms);
    }

    /** `WNext(coord)`: writes the frame unless `WriteError` names an
        error, which it then returns. */
    method WNext(coord: Option<seq<Vec3>>) returns (err: Option<string>)
      modifies this
      ensures err == WriteError(old(writeable), coord, natoms)
      ensures out == old(out) + (if err.None? then FrameText(coord.value) else "")
      ensures writeable == old(writeable)
    {
      err := WriteError(writeable, coord, natoms);
      if err.Some? {
        return;
      }
      var rows := coord.value;
      ghost var start := out;
      var i := 0;
      while i < |rows|
        invariant 0 <= i <= |rows|
        invariant out + RowsText(rows[i..]) == start + RowsText(rows)
        invariant writeable == old(writeable) && start == old(out)
      {
        var str := Join([FixedText(rows[i].x, 3), FixedText(rows[i].y, 3), FixedText(rows[i].z, 3), "\n"], " ");
        RowTextWords(rows[i]);
        RowsTextStep(out, rows, i);
        out := out + str;
        i := i + 1;
      }
      assert rows[i..] == [] && out + "" == out;
      AppendAssoc(start, RowsText(rows), "*\n");
      out := out + "*\n";
    }

    /** `Close()`: the writer stops being writeable; what was written stays. */
    method Close()
      modifies this
      ensures !writeable && out == old(out)
    {
      writeable := false;
    }
  }

  // ---------------------------------------------------------------------
  // Reading the header

  /** What `New` establishes: the unread text after the sentinel line, the
      header map and the atom count. */
  datatype Opened = Opened(rest: string, header: map<string, string>, natoms: int)

  /** The error `New` reports for a sentinel whose count `w` does not
      read, with `strconv.Atoi`'s own message after it. */
  function AtomNumberError(w: string): string {
    "Can't read atom number from '" + w + "': " + AtoiError(w)
  }

  /** The start of `Next`'s error for a coordinate that does not read;
      `strconv.ParseFloat`'s message follows it directly. */
  const Unparseable := "Coordinate un parseable in frame."

  /** The header loop of `New` as evidently intended, from `s` on with the
      entries `m` read so far: a line the stream ends before is an error; a
      line containing `**` gives the atom count from its second field; any
      other line must split at `=` into exactly two parts, key and value. */
  function ScanHeader(s: string, m: map<string, string>): (r: Outcome<Opened>)
    ensures !r.Panic?
    ensures r.Ok? ==> IsInt64(r.value.natoms) && |r.value.rest| < |s|
    decreases |s|
  {
    var l := ReadLine(s);
    if l.eof then Err("Can't read header EOF")
    else
      var str := TrimSuffix(l.text, "\n");
      if Contains(str, "**") then
        var fs := Fields(str);
        if |fs| < 2 then Err("Can't read atom number from '" + str + "'")
        else match Atoi(fs[1])
          case None => Err(AtomNumberError(fs[1]))
          case Some(n) => Ok(Opened(l.rest, m, n))
      else
        var kv := Split(str, "=");
        if |kv| != 2 then Err("Malformed header")
        else ScanHeader(l.rest, m[kv[0] := kv[1]])
  }

  /** `New` on a stream holding `s`, as evidently intended: the header map
      starts empty. */
  function Open(s: string): (r: Outcome<Opened>)
    ensures !r.Panic?
  {
    ScanHeader(s, map[])
  }

  /** `New` as written: the map is never made, so storing the first entry
      panics, and the two error messages that call `err.Error()` on the
      loop's nil `err` (a short sentinel line, a malformed entry) panic
      too. Only a header whose first line is the sentinel opens. */
  function OpenAsWritten(s: string): (r: Outcome<Opened>)
    ensures !r.Panic? ==> r == Open(s)
    ensures r.Ok? ==> r.value.header == map[]
  {
    var l := ReadLine(s);
    if l.eof then Err("Can't read header EOF")
    else
      var str := TrimSuffix(l.text, "\n");
      if Contains(str, "**") then
        var fs := Fields(str);
        if |fs| < 2 then Panic(NilDereference)
        else match Atoi(fs[1])
          case None => Err(AtomNumberError(fs[1]))
          case Some(n) => Ok(Opened(l.rest, map[], n))
      else if |Split(str, "=")| != 2 then Panic(NilDereference)
      else Panic(NilMapWrite)
  }

  // ---------------------------------------------------------------------
  // Reading frames

  /** Where a call of `Next` stops: how it ended, the unread text, the
      destination's contents, and whether the error it returns is one whose
      message calls `err.Error()` on a nil `err`. */
  datatype Scanned = Scanned(status: FrameStatus, rest: string, frame: seq<real>, nilErr: bool)

  /** The inner loop of `Next`: the parsed coordinates of row `i` from
      column `j` on, stored at `3i + j`, `3i + j + 1`, ... of the
      destination (a `v3.Matrix` keeps its rows one after the other); the
      first one that does not parse ends it, the earlier ones stay stored. */
  function SetCoords(coords: seq<string>, i: nat, j: nat, frame: seq<real>, parse: string -> Option<real>)
    : (r: (seq<real>, Option<string>))
    requires |coords| == 3 && j <= 3 && 3 * i + 3 <= |frame|
    ensures |r.0| == |frame|
    ensures r.1.None? <==> forall k :: j <= k < 3 ==> parse(coords[k]).Some?
    ensures forall p :: 0 <= p < |frame| && !(3 * i + j <= p < 3 * i + 3) ==> r.0[p] == frame[p]
    decreases 3 - j
  {
    if j == 3 then (frame, None)
    else match parse(coords[j])
      case None => (frame, Some(Unparseable + ParseFloatError(coords[j])))
      case Some(v) => SetCoords(coords, i, j + 1, frame[3 * i + j := v], parse)
  }

  /** The error of a row that does not store names a coordinate that
      does not parse, with `ParseFloat`'s message for it. */
  lemma {:induction false} SetCoordsError(coords: seq<string>, i: nat, j: nat, frame: seq<real>, parse: string -> Option<real>)
    requires |coords| == 3 && j <= 3 && 3 * i + 3 <= |frame|
    ensures var e := SetCoords(coords, i, j, frame, parse).1;
            e.Some? ==> exists k :: j <= k < 3 && parse(coords[k]).None? && e == Some(Unparseable + ParseFloatError(coords[k]))
    decreases 3 - j
  {
    if j < 3 && parse(coords[j]).Some? {
      SetCoordsError(coords, i, j + 1, frame[3 * i + j := parse(coords[j]).value], parse);
    }
  }

  /** One row line of `Next`, as evidently intended: the stream ending
      before it is the normal end of the trajectory at the first row and an
      error later; a line without exactly three fields is an error; the
      fields are parsed and stored when there is a destination (`store`),
      only counted when there is none. */
  datatype RowStep = Stored(rest: string, frame: seq<real>) | Stopped(sc: Scanned)

  function RowRead(s: string, i: nat, frame: seq<real>, store: bool, parse: string -> Option<real>): (r: RowStep)
    requires store ==> 3 * i + 3 <= |frame|
    ensures r.Stored? ==> |r.rest| < |s| && |r.frame| == |frame| && (!store ==> r.frame == frame)
    ensures r.Stopped? ==> |r.sc.frame| == |frame| && (!store ==> r.sc.frame == frame)
    ensures r.Stopped? && r.sc.status.LastFrame? ==> i == 0 && r.sc.rest == []
    ensures r.Stopped? ==> !r.sc.status.Read? && !r.sc.status.Panicked? && (r.sc.nilErr ==> r.sc.status.Failed?)
  {
    var l := ReadLine(s);
    if l.eof then
      if i == 0 then Stopped(Scanned(LastFrame, l.rest, frame, false))
      else Stopped(Scanned(Failed("Can't read frame, atom: " + IntText(i) + "  read: " + l.text + ": EOF"), l.rest, frame, false))
    else
      var coords := Fields(l.text[..|l.text| - 1]);
      if |coords| != 3 then Stopped(Scanned(Failed("Wrong number of coordinates or atoms in frame"), l.rest, frame, true))
      else if !store then Stored(l.rest, frame)
      else
        var (f, e) := SetCoords(coords, i, 0, frame, parse);
        if e.Some? then Stopped(Scanned(Failed(e.value), l.rest, f, false))
        else Stored(l.rest, f)
  }

  /** The terminator line of `Next`: it must be `*` alone. */
  function EndFrame(s: string, frame: seq<real>): (r: Scanned)
    ensures r.frame == frame && !r.status.LastFrame? && !r.status.Panicked? && (r.nilErr ==> r.status.Failed?)
  {
    var l := ReadLine(s);
    if l.eof then Scanned(Failed("Can't read the frame termination markEOF"), l.rest, frame, false)
    else if l.text != "*\n" then Scanned(Failed("Wrong number of atoms in frame"), l.rest, frame, true)
    else Scanned(Read, l.rest, frame, false)
  }

  /** `Next` as evidently intended, from row `i` on: the row lines up to
      `natoms`, then the terminator. */
  function NextFrame(s: string, i: nat, natoms: int, frame: seq<real>, store: bool, parse: string -> Option<real>)
    : (r: Scanned)
    requires store ==> 3 * natoms <= |frame|
    ensures |r.frame| == |frame|
    ensures !store ==> r.frame == frame
    ensures r.status.LastFrame? ==> i == 0 && r.rest == []
    ensures !r.status.Panicked? && (r.nilErr ==> r.status.Failed?)
    decreases if i < natoms then natoms - i else 0
  {
    if i >= natoms then EndFrame(s, frame)
    else match RowRead(s, i, frame, store, parse)
      case Stopped(sc) => sc
      case Stored(rest, f) => NextFrame(rest, i + 1, natoms, f, store, parse)
  }

  /** `NextFrame` before the terminator is one `RowRead` and then the rest
      of the frame, unless that row stops it: given the reader's text and
      destination after one row (`s1`, `f1`) and how that row ended
      (`stop`), what remains of the frame. */
  lemma RowStepped(s: string, i: nat, natoms: int, frame: seq<real>, store: bool, parse: string -> Option<real>,
                   stop: Option<FrameStatus>, s1: string, f1: seq<real>)
    requires i < natoms && (store ==> 3 * natoms <= |frame|)
    requires var r := RowRead(s, i, frame, store, parse);
             (r.Stored? ==> stop == None && s1 == r.rest && f1 == r.frame)
             && (r.Stopped? ==> stop == Some(r.sc.status) && s1 == r.sc.rest && f1 == r.sc.frame)
    ensures stop.None? ==> |f1| == |frame|
                           && NextFrame(s1, i + 1, natoms, f1, store, parse) == NextFrame(s, i, natoms, frame, store, parse)
    ensures stop.Some? ==> var sc := NextFrame(s, i, natoms, frame, store, parse);
                           stop.value == sc.status && s1 == sc.rest && f1 == sc.frame
  {
  }

  /** `Next` as written: the two errors whose message calls `err.Error()`
      on a nil `err` (a row without three fields, a wrong terminator) panic
      instead of being returned. */
  function NextAsWritten(s: string, natoms: int, frame: seq<real>, store: bool, parse: string -> Option<real>)
    : (r: Scanned)
    requires store ==> 3 * natoms <= |frame|
    ensures r.rest == NextFrame(s, 0, natoms, frame, store, parse).rest
    ensures !r.status.Panicked? ==> r == NextFrame(s, 0, natoms, frame, store, parse)
  {
    var sc := NextFrame(s, 0, natoms, frame, store, parse);
    if sc.nilErr then Scanned(Panicked(NilDereference), sc.rest, sc.frame, true) else sc
  }

  /** A read-mode trajectory, `StfR`. */
  class Reader {
    /** The text not yet read from the decompressed stream. */
    var rest: string
    var readable: bool
    const natoms: int
    /** `strconv.ParseFloat` on a field. */
    const parse: string -> Option<real>

    constructor (o: Opened, parse: string -> Option<real>)
      ensures rest == o.rest && natoms == o.natoms && readable && this.parse == parse
    {
      rest, natoms, readable := o.rest, o.natoms, true;
      this.parse := parse;
    }

    /** `Next(c)`: reads one frame into `c` as `NextFrame` says, `store`
        being whether `c` is non-nil; at the end of the trajectory the
        reader closes itself. */
    method Next(c: array<real>, store: bool) returns (st: FrameStatus)
      requires store ==> 3 * natoms <= c.Length
      modifies this, c
      ensures var sc := NextFrame(old(rest), 0, natoms, old(c[..]), store, parse);
              st == sc.status && rest == sc.rest && c[..] == sc.frame
      ensures readable == (old(readable) && !st.LastFrame?)
    {
      var stop, i := ReadRows(c, store);
      if stop.Some? {
        return stop.value;
      }
      st := ReadEnd(c, i, store);
    }

    /** The row loop of `Next`: it stops with `Some(status)` where
        `NextFrame` stops before the terminator, and otherwise leaves the
        reader at the terminator after row `i`. */
    method ReadRows(c: array<real>, store: bool) returns (stop: Option<FrameStatus>, i: nat)
      requires store ==> 3 * natoms <= c.Length
      modifies this, c
      ensures var sc := NextFrame(old(rest), 0, natoms, old(c[..]), store, parse);
              stop.Some? ==> stop.value == sc.status && rest == sc.rest && c[..] == sc.frame
                             && readable == (old(readable) && !stop.value.LastFrame?)
      ensures stop.None? ==> readable == old(readable) && i >= natoms
                             && NextFrame(rest, i, natoms, c[..], store, parse)
                                == NextFrame(old(rest), 0, natoms, old(c[..]), store, parse)
    {
      ghost var goal := NextFrame(rest, 0, natoms, c[..], store, parse);
      i := 0;
      while i < natoms
        invariant NextFrame(rest, i, natoms, c[..], store, parse) == goal
        invariant readable == old(readable)
        invariant store ==> 3 * natoms <= c.Length
        decreases natoms - i
      {
        ghost var s0, f0 := rest, c[..];
        stop := ReadRow(c, i, store);
        RowStepped(s0, i, natoms, f0, store, parse, stop, rest, c[..]);
        if stop.Some? {
          return;
        }
        i := i + 1;
      }
      stop := None;
    }

    /** One pass of the row loop of `Next`: the row is stored or counted
        (`None`), or the frame ends with `Some(status)`; the reader closes
        itself at the end of the trajectory. */
    method ReadRow(c: array<real>, i: nat, store: bool) returns (stop: Option<FrameStatus>)
      requires store ==> 3 * i + 3 <= c.Length
      modifies this, c
      ensures var r := RowRead(old(rest), i, old(c[..]), store, parse);
              (r.Stored? ==> stop == None && rest == r.rest && c[..] == r.frame)
              && (r.Stopped? ==> stop == Some(r.sc.status) && rest == r.sc.rest && c[..] == r.sc.frame)
      ensures readable == (old(readable) && !(stop.Some? && stop.value.LastFrame?))
    {
      var l := ReadLine(rest);
      rest := l.rest;
      if l.eof {
        if i == 0 {
          Close();
          return Some(LastFrame);
        }
        return Some(Failed("Can't read frame, atom: " + IntText(i) + "  read: " + l.text + ": EOF"));
      }
      var coords := Fields(l.text[..|l.text| - 1]);
      if |coords| != 3 {
        return Some(Failed("Wrong number of coordinates or atoms in frame"));
      }
      if store {
        var e := SetRow(c, coords, i);
        if e.Some? {
          return Some(Failed(e.value));
        }
      }
      stop := None;
    }

    /** The terminator read of `Next`, as `EndFrame` says. */
    method ReadEnd(c: array<real>, i: nat, store: bool) returns (st: FrameStatus)
      requires i >= natoms
      requires store ==> 3 * natoms <= c.Length
      modifies this
      ensures var sc := NextFrame(old(rest), i, natoms, c[..], store, parse);
              st == sc.status && rest == sc.rest && c[..] == sc.frame
      ensures readable == old(readable)
    {
      var l := ReadLine(rest);
      rest := l.rest;
      if l.eof {
        return Failed("Can't read the frame termination markEOF");
      }
      if l.text != "*\n" {
        return Failed("Wrong number of atoms in frame");
      }
      return Read;
    }

    /** The `c.Set(i, j, n)` loop over the three fields of row `i`. */
    method SetRow(c: array<real>, coords: seq<string>, i: nat) returns (err: Option<string>)
      requires |coords| == 3 && 3 * i + 3 <= c.Length
      modifies c
      ensures (c[..], err) == SetCoords(coords, i, 0, old(c[..]), parse)
    {
      var j := 0;
      while j < 3
        invariant 0 <= j <= 3
        invariant SetCoords(coords, i, j, c[..], parse) == SetCoords(coords, i, 0, old(c[..]), parse)
      {
        var n := parse(coords[j]);
        if n.None? {
          return Some(Unparseable + ParseFloatError(coords[j]));
        }
        c[3 * i + j] := n.value;
        j := j + 1;
      }
      err := None;
    }

    /** `Close()`: only the first call closes the stream. */
    method Close()
      modifies this
      ensures !readable && rest == old(rest)
    {
      if readable {
        readable := false;
      }
    }
  }

  /** `New(name)` on a stream that holds `s`, as `Open` says: the reader
      and the header map, or the error. */
  method New(s: string, parse: string -> Option<real>) returns (r: Outcome<(Reader, map<string, string>)>)
    ensures !r.Panic?
    ensures r.Ok? <==> Open(s).Ok?
    ensures r.Err? ==> Open(s) == Err(r.msg)
    ensures r.Ok? ==> fresh(r.value.0) && r.value.0.rest == Open(s).value.rest
                      && r.value.0.natoms == Open(s).value.natoms && r.value.1 == Open(s).value.header
                      && r.value.0.readable && r.value.0.parse == parse
  {
    var rest := s;
    var m: map<string, string> := map[];
    while true
      invariant ScanHeader(rest, m) == Open(s)
      decreases |rest|
    {
      var l := ReadLine(rest);
      if l.eof {
        return Err("Can't read header EOF");
      }
      var str := TrimSuffix(l.text, "\n");
      if Contains(str, "**") {
        var fs := Fields(str);
        if |fs| < 2 {
          return Err("Can't read atom number from '" + str + "'");
        }
        var n := Atoi(fs[1]);
        if n.None? {
          return Err(AtomNumberError(fs[1]));
        }
        var reader := new Reader(Opened(l.rest, m, n.value), parse);
        return Ok((reader, m));
      }
      var kv := Split(str, "=");
      if |kv| != 2 {
        return Err("Malformed header");
      }
      m := m[kv[0] := kv[1]];
      rest := l.rest;
    }
  }

  // ---------------------------------------------------------------------
  // Reading back what the writer wrote: the header

  /** An ordering is empty exactly when its map is. */
  lemma OrderingEmpty(order: seq<string>, m: map<string, string>)
    requires Ordering(order, m)
    ensures order == [] <==> m == map[]
  {
    if order != [] {
      assert order[0] in m;
    } else {
      assert m.Keys == {};
    }
  }

  /** A key or value the reader gets back as written: no `=` (the line
      would not split in two), no newline and no `*` (the line would be
      taken for the sentinel). */
  predicate Plain(s: string) {
    '=' !in s && '\n' !in s && '*' !in s
  }

  predicate PlainMap(m: map<string, string>) {
    forall k :: k in m ==> Plain(k) && Plain(m[k])
  }

  /** The map `acc` after storing the entries of `m` under the keys `ks`,
      one after the other. */
  function Extend(acc: map<string, string>, m: map<string, string>, ks: seq<string>): (r: map<string, string>)
    requires forall i :: 0 <= i < |ks| ==> ks[i] in m
    ensures forall k :: k in r <==> k in acc || k in ks
    ensures forall k :: k in r ==> r[k] == if k in ks then m[k] else acc[k]
    decreases |ks|
  {
    if ks == [] then acc else Extend(acc[ks[0] := m[ks[0]]], m, ks[1..])
  }

  /** Storing every key of an ordering into an empty map gives the map. */
  lemma ExtendAll(m: map<string, string>, order: seq<string>)
    requires Ordering(order, m)
    ensures Extend(map[], m, order) == m
  {
    var r := Extend(map[], m, order);
    forall k | k in r
      ensures k in m && r[k] == m[k]
    {
    }
    forall k | k in m
      ensures k in r
    {
    }
  }

  /** The trailing newline of a line is cut. */
  lemma TrimNewline(l: string)
    ensures TrimSuffix(l + "\n", "\n") == l
  {
    assert (l + "\n")[|l|..] == "\n";
  }

  /** A `k=v` text of plain parts holds no newline and no `*`, and splits
      at `=` into the key and the value. */
  lemma EntryText(k: string, v: string)
    requires Plain(k) && Plain(v)
    ensures var e := k + "=" + v;
            '\n' !in e && !Contains(e, "**") && Split(e, "=") == [k, v]
  {
    var e := k + "=" + v;
    assert forall i :: 0 <= i < |e| ==> e[i] == if i < |k| then k[i] else if i == |k| then '=' else v[i - |k| - 1];
    FindAbsent(e, "**");
    SplitStep(k, "=", v);
    FindAbsent(v, "=");
  }

  /** One line of the header loop that is neither the last nor the
      sentinel, and splits in two, is stored. */
  lemma ScanEntryLine(e: string, rest: string, acc: map<string, string>)
    requires '\n' !in e && !Contains(e, "**") && |Split(e, "=")| == 2
    ensures ScanHeader(e + "\n" + rest, acc) == ScanHeader(rest, acc[Split(e, "=")[0] := Split(e, "=")[1]])
  {
    ReadLineOf(e, rest);
    TrimNewline(e);
  }

  /** A `k=v` line of plain parts is one header entry. */
  lemma EntryScan(k: string, v: string, rest: string, acc: map<string, string>)
    requires Plain(k) && Plain(v)
    ensures ScanHeader(k + "=" + v + "\n" + rest, acc) == ScanHeader(rest, acc[k := v])
  {
    EntryText(k, v);
    ScanEntryLine(k + "=" + v, rest, acc);
  }

  /** The header loop reads the `k=v` lines of a plain map. */
  lemma {:induction false} HeaderLinesScan(m: map<string, string>, order: seq<string>, rest: string,
                                           acc: map<string, string>)
    requires PlainMap(m) && forall i :: 0 <= i < |order| ==> order[i] in m
    ensures ScanHeader(HeaderLines(m, order) + rest, acc) == ScanHeader(rest, Extend(acc, m, order))
    decreases |order|
  {
    if order == [] {
      assert HeaderLines(m, order) + rest == rest;
    } else {
      var k := order[0];
      var x := HeaderLines(m, order[1..]) + rest;
      assert HeaderLines(m, order) + rest == k + "=" + m[k] + "\n" + x;
      EntryScan(k, m[k], x, acc);
      HeaderLinesScan(m, order[1..], rest, acc[k := m[k]]);
    }
  }

  /** The sentinel text holds no newline, contains `**`, and its second
      field is the atom count's rendering. */
  lemma SentinelText(natoms: int)
    ensures var l := "** " + IntText(natoms);
            '\n' !in l && Contains(l, "**") && Fields(l) == ["**", IntText(natoms)]
  {
    var w := IntText(natoms);
    IntTextWord(natoms);
    NumberWordPlain(w);
    var l := "** " + w;
    assert forall i :: 0 <= i < |l| ==> l[i] == if i < 3 then "** "[i] else w[i - 3];
    assert l[..2] == "**";
    assert Join(["**", w], " ") == l by {
      assert ["**", w][1..] == [w];
    }
    assert "**" != [] && NoSep("**", GoSpace);
    FieldsOfJoin(["**", w], ' ', "", GoSpace);
    assert l + "" == l;
  }

  /** A sentinel line whose second field is a 64-bit integer ends the
      header loop with that count. */
  lemma ScanSentinelLine(l: string, rest: string, acc: map<string, string>)
    requires '\n' !in l && Contains(l, "**") && |Fields(l)| >= 2 && Atoi(Fields(l)[1]).Some?
    ensures ScanHeader(l + "\n" + rest, acc) == Ok(Opened(rest, acc, Atoi(Fields(l)[1]).value))
  {
    ReadLineOf(l, rest);
    TrimNewline(l);
  }

  /** The `** natoms` line ends the header loop with the atom count. */
  lemma SentinelScan(natoms: int, rest: string, acc: map<string, string>)
    requires IsInt64(natoms)
    ensures ScanHeader(SentinelLine(natoms) + rest, acc) == Ok(Opened(rest, acc, natoms))
  {
    var l := "** " + IntText(natoms);
    SentinelText(natoms);
    ParseIntText(natoms);
    ScanSentinelLine(l, rest, acc);
    assert SentinelLine(natoms) + rest == l + "\n" + rest;
  }

  /** The reader, as evidently intended, opens what the writer's
      constructor wrote: the same atom count and the same map (none read as
      an empty one); the frames are left unread. */
  lemma HeaderRoundTrip(header: Option<map<string, string>>, order: seq<string>, natoms: int, rest: string)
    requires header.Some? ==> Ordering(order, header.value) && PlainMap(header.value)
    requires IsInt64(natoms)
    ensures Open(HeaderText(header, order, natoms) + rest)
            == Ok(Opened(rest, if header.Some? then header.value else map[], natoms))
  {
    var x := SentinelLine(natoms) + rest;
    if header.Some? {
      var m := header.value;
      AppendAssoc(HeaderLines(m, order), SentinelLine(natoms), rest);
      HeaderLinesScan(m, order, x, map[]);
      ExtendAll(m, order);
      SentinelScan(natoms, rest, m);
    } else {
      assert HeaderText(header, order, natoms) + rest == x;
      SentinelScan(natoms, rest, map[]);
    }
  }

  /** `New` as written panics at the first line that is an entry. */
  lemma EntryLineAsWritten(e: string, rest: string)
    requires '\n' !in e && !Contains(e, "**") && |Split(e, "=")| == 2
    ensures OpenAsWritten(e + "\n" + rest) == Panic(NilMapWrite)
  {
    ReadLineOf(e, rest);
    TrimNewline(e);
  }

  /** `New` as written opens a stream whose first line is the sentinel. */
  lemma SentinelAsWritten(natoms: int, rest: string)
    requires IsInt64(natoms)
    ensures OpenAsWritten(SentinelLine(natoms) + rest) == Ok(Opened(rest, map[], natoms))
  {
    var l := "** " + IntText(natoms);
    SentinelText(natoms);
    ParseIntText(natoms);
    OpenSentinelLineAsWritten(l, rest);
    assert SentinelLine(natoms) + rest == l + "\n" + rest;
  }

  /** `New` as written reads a first line that holds `**` and a count as
      the whole header. */
  lemma OpenSentinelLineAsWritten(l: string, rest: string)
    requires '\n' !in l && Contains(l, "**") && |Fields(l)| >= 2 && Atoi(Fields(l)[1]).Some?
    ensures OpenAsWritten(l + "\n" + rest) == Ok(Opened(rest, map[], Atoi(Fields(l)[1]).value))
  {
    ReadLineOf(l, rest);
    TrimNewline(l);
  }

  /** The first line the writer writes for a non-empty map is an entry. */
  lemma FirstEntryAsWritten(m: map<string, string>, order: seq<string>, natoms: int, rest: string)
    requires Ordering(order, m) && PlainMap(m) && m != map[]
    ensures OpenAsWritten(HeaderText(Some(m), order, natoms) + rest) == Panic(NilMapWrite)
  {
    OrderingEmpty(order, m);
    var k0 := order[0];
    var e := k0 + "=" + m[k0];
    var x := HeaderLines(m, order[1..]) + SentinelLine(natoms) + rest;
    assert HeaderText(Some(m), order, natoms) + rest == e + "\n" + x;
    EntryText(k0, m[k0]);
    EntryLineAsWritten(e, x);
  }

  /** `New` as written opens a header without entries and panics on any
      other the writer writes, at the store of its first entry. */
  lemma HeaderAsWritten(header: Option<map<string, string>>, order: seq<string>, natoms: int, rest: string)
    requires header.Some? ==> Ordering(order, header.value) && PlainMap(header.value)
    requires IsInt64(natoms)
    ensures OpenAsWritten(HeaderText(header, order, natoms) + rest)
            == if header.Some? && header.value != map[] then Panic(NilMapWrite) else Ok(Opened(rest, map[], natoms))
  {
    if header.Some? && header.value != map[] {
      FirstEntryAsWritten(header.value, order, natoms, rest);
    } else {
      if header.Some? {
        OrderingEmpty(order, header.value);
      }
      assert HeaderText(header, order, natoms) + rest == SentinelLine(natoms) + rest;
      SentinelAsWritten(natoms, rest);
    }
  }

  // ---------------------------------------------------------------------
  // Reading back what the writer wrote: the frames

  /** Words that hold no blank and no newline: what a row line is made of. */
  predicate PlainWords(ws: seq<string>) {
    forall i :: 0 <= i < |ws| ==> ws[i] != [] && NoSep(ws[i], GoSpace) && '\n' !in ws[i]
  }

  /** The words of a row are plain. */
  lemma RowWordsPlain(v: Vec3)
    ensures PlainWords(RowWords(v))
  {
    var ws := RowWords(v);
    forall j | 0 <= j < 3
      ensures ws[j] != [] && NoSep(ws[j], GoSpace) && '\n' !in ws[j]
    {
      FixedTextWord(Coord(v, j), 3);
      NumberWordPlain(ws[j]);
    }
  }

  /** Plain words and `"\n"` joined by blanks are the words, a blank and
      the newline. */
  lemma WordsLineText(ws: seq<string>)
    requires ws != [] && PlainWords(ws)
    ensures Join(ws + ["\n"], " ") == (Join(ws, " ") + " ") + "\n"
    ensures '\n' !in Join(ws, " ") + " "
  {
    JoinSnoc(ws, "\n", " ");
    JoinAvoids(ws, " ", '\n');
  }

  /** The line before the newline splits back into the words. */
  lemma WordsLineFields(ws: seq<string>)
    requires PlainWords(ws)
    ensures Fields(Join(ws, " ") + " ") == ws
  {
    FieldsOfJoin(ws, ' ', " ", GoSpace);
  }

  /** The frame with row `i` set to the values the reader gets back from
      the row `v` that the writer wrote. */
  function StoredRow(frame: seq<real>, i: nat, v: Vec3): (f: seq<real>)
    requires 3 * i + 3 <= |frame|
    ensures |f| == |frame|
    ensures forall j :: 0 <= j < 3 ==> f[3 * i + j] == FixedValue(Coord(v, j), 3)
    ensures forall p :: 0 <= p < |frame| && (p < 3 * i || p >= 3 * i + 3) ==> f[p] == frame[p]
  {
    frame[3 * i := FixedValue(v.x, 3)][3 * i + 1 := FixedValue(v.y, 3)][3 * i + 2 := FixedValue(v.z, 3)]
  }

  /** Parsing the words of a written row from column `j` on stores their
      fixed-point values and finds no error. */
  lemma {:induction false} SetCoordsRead(v: Vec3, i: nat, j: nat, frame: seq<real>, parse: string -> Option<real>)
    requires ReadsDecimals(parse) && j <= 3 && 3 * i + 3 <= |frame|
    ensures SetCoords(RowWords(v), i, j, frame, parse).1 == None
    ensures forall p :: 0 <= p < |frame| ==>
              SetCoords(RowWords(v), i, j, frame, parse).0[p]
              == if 3 * i + j <= p < 3 * i + 3 then FixedValue(Coord(v, p - 3 * i), 3) else frame[p]
    decreases 3 - j
  {
    if j < 3 {
      ParseFixedValue(parse, Coord(v, j), 3);
      SetCoordsRead(v, i, j + 1, frame[3 * i + j := FixedValue(Coord(v, j), 3)], parse);
    }
  }

  /** Parsing the words of a written row gives the row as the reader
      stores it. */
  lemma SetCoordsRow(v: Vec3, i: nat, frame: seq<real>, parse: string -> Option<real>)
    requires ReadsDecimals(parse) && 3 * i + 3 <= |frame|
    ensures SetCoords(RowWords(v), i, 0, frame, parse) == (StoredRow(frame, i, v), None)
  {
    SetCoordsRead(v, i, 0, frame, parse);
    var r := SetCoords(RowWords(v), i, 0, frame, parse);
    var f := StoredRow(frame, i, v);
    forall p | 0 <= p < |frame|
      ensures r.0[p] == f[p]
    {
      if 3 * i <= p < 3 * i + 3 {
        assert f[3 * i + (p - 3 * i)] == FixedValue(Coord(v, p - 3 * i), 3);
      }
    }
    assert r.0 == f;
  }

  /** A row line of three fields that all parse is stored (or, without a
      destination, counted). */
  lemma RowLineRead(l: string, rest: string, i: nat, frame: seq<real>, store: bool, parse: string -> Option<real>)
    requires '\n' !in l && |Fields(l)| == 3 && (store ==> 3 * i + 3 <= |frame|)
    requires store ==> SetCoords(Fields(l), i, 0, frame, parse).1 == None
    ensures RowRead(l + "\n" + rest, i, frame, store, parse)
            == Stored(rest, if store then SetCoords(Fields(l), i, 0, frame, parse).0 else frame)
  {
    ReadLineOf(l, rest);
    assert (l + "\n")[..|l + "\n"| - 1] == l;
  }

  /** One written row is read and, with a destination, stored. */
  lemma WrittenRowRead(v: Vec3, rest: string, i: nat, frame: seq<real>, store: bool, parse: string -> Option<real>)
    requires ReadsDecimals(parse) && (store ==> 3 * i + 3 <= |frame|)
    ensures RowRead(RowText(v) + rest, i, frame, store, parse)
            == Stored(rest, if store then StoredRow(frame, i, v) else frame)
  {
    var ws := RowWords(v);
    RowWordsPlain(v);
    WordsLineText(ws);
    WordsLineFields(ws);
    var l := Join(ws, " ") + " ";
    if store {
      SetCoordsRow(v, i, frame, parse);
    }
    RowLineRead(l, rest, i, frame, store, parse);
  }

  /** The frame with rows `i..` of `rows` stored as the reader gets them
      back; the other entries stay. */
  function StoredFrame(rows: seq<Vec3>, i: nat, frame: seq<real>): (f: seq<real>)
    requires i <= |rows| && 3 * |rows| <= |frame|
    ensures |f| == |frame|
    ensures forall r, j :: i <= r < |rows| && 0 <= j < 3 ==> f[3 * r + j] == FixedValue(Coord(rows[r], j), 3)
    ensures forall p :: 0 <= p < |frame| && (p < 3 * i || p >= 3 * |rows|) ==> f[p] == frame[p]
    decreases |rows| - i
  {
    if i == |rows| then frame
    else StoredFrame(rows, i + 1, StoredRow(frame, i, rows[i]))
  }

  /** The rows `i..` of a written frame are read, up to the terminator. */
  lemma {:induction false} RowsScan(rows: seq<Vec3>, i: nat, tail: string, frame: seq<real>, store: bool,
                                    parse: string -> Option<real>)
    requires ReadsDecimals(parse) && i <= |rows| && (store ==> 3 * |rows| <= |frame|)
    ensures NextFrame(RowsText(rows[i..]) + tail, i, |rows|, frame, store, parse)
            == EndFrame(tail, if store then StoredFrame(rows, i, frame) else frame)
    decreases |rows| - i
  {
    if i == |rows| {
      assert rows[i..] == [];
      assert RowsText(rows[i..]) + tail == tail;
    } else {
      assert rows[i..][1..] == rows[i + 1..];
      var x := RowsText(rows[i + 1..]) + tail;
      AppendAssoc(RowText(rows[i]), RowsText(rows[i + 1..]), tail);
      WrittenRowRead(rows[i], x, i, frame, store, parse);
      var f := if store then StoredRow(frame, i, rows[i]) else frame;
      RowsScan(rows, i + 1, tail, f, store, parse);
    }
  }

  /** The terminator line ends a frame. */
  lemma EndRead(tail: string, frame: seq<real>)
    ensures EndFrame("*\n" + tail, frame) == Scanned(Read, tail, frame, false)
  {
    ReadLineOf("*", tail);
    assert "*" + "\n" == "*\n";
    assert ReadLine("*\n" + tail) == Line("*\n", tail, false);
  }

  /** The reader, as evidently intended, reads back a frame the writer
      wrote: the frame ends cleanly, the unread text is what follows it,
      and with a destination each coordinate is stored as its three-decimal
      rounding; without one the destination is left alone. */
  lemma FrameRoundTrip(rows: seq<Vec3>, tail: string, frame: seq<real>, store: bool, parse: string -> Option<real>)
    requires ReadsDecimals(parse) && (store ==> 3 * |rows| <= |frame|)
    ensures NextFrame(FrameText(rows) + tail, 0, |rows|, frame, store, parse)
            == Scanned(Read, tail, if store then StoredFrame(rows, 0, frame) else frame, false)
  {
    AppendAssoc(RowsText(rows), "*\n", tail);
    assert rows[0..] == rows;
    RowsScan(rows, 0, "*\n" + tail, frame, store, parse);
    EndRead(tail, if store then StoredFrame(rows, 0, frame) else frame);
  }

  /** `Next` as written reads a written frame the same way: the panics are
      on malformed input only. */
  lemma FrameAsWritten(rows: seq<Vec3>, tail: string, frame: seq<real>, store: bool, parse: string -> Option<real>)
    requires ReadsDecimals(parse) && (store ==> 3 * |rows| <= |frame|)
    ensures NextAsWritten(FrameText(rows) + tail, |rows|, frame, store, parse)
            == Scanned(Read, tail, if store then StoredFrame(rows, 0, frame) else frame, false)
  {
    FrameRoundTrip(rows, tail, frame, store, parse);
  }

  /** A whole written trajectory, header then one frame, read back by the
      corrected reader: the atom count, the header map and the frame. */
  lemma TrajectoryRoundTrip(header: Option<map<string, string>>, order: seq<string>, rows: seq<Vec3>, tail: string,
                            frame: seq<real>, store: bool, parse: string -> Option<real>)
    requires header.Some? ==> Ordering(order, header.value) && PlainMap(header.value)
    requires IsInt64(|rows|) && ReadsDecimals(parse) && (store ==> 3 * |rows| <= |frame|)
    ensures var o := Open(HeaderText(header, order, |rows|) + FrameText(rows) + tail);
            o.Ok? && o.value.natoms == |rows| && o.value.header == (if header.Some? then header.value else map[])
            && NextFrame(o.value.rest, 0, o.value.natoms, frame, store, parse)
               == Scanned(Read, tail, if store then StoredFrame(rows, 0, frame) else frame, false)
  {
    AppendAssoc(HeaderText(header, order, |rows|), FrameText(rows), tail);
    HeaderRoundTrip(header, order, |rows|, FrameText(rows) + tail);
    FrameRoundTrip(rows, tail, frame, store, parse);
  }

  /** `Next` as written panics exactly where the corrected one returns an
      error whose message reads the nil `err`, and otherwise agrees with
      it. */
  lemma AsWrittenPanics(s: string, natoms: int, frame: seq<real>, store: bool, parse: string -> Option<real>)
    requires store ==> 3 * natoms <= |frame|
    ensures var sc := NextFrame(s, 0, natoms, frame, store, parse);
            var w := NextAsWritten(s, natoms, frame, store, parse);
            (w.status.Panicked? <==> sc.nilErr) && (!sc.nilErr ==> w == sc)
  {
  }

  /** A first row line that does not hold three fields: `Next` as written
      panics where the corrected one reports the row. */
  lemma ShortRowAsWritten(l: string, rest: string, natoms: int, frame: seq<real>, store: bool,
                          parse: string -> Option<real>)
    requires '\n' !in l && |Fields(l)| != 3 && natoms > 0 && (store ==> 3 * natoms <= |frame|)
    ensures NextFrame(l + "\n" + rest, 0, natoms, frame, store, parse)
            == Scanned(Failed("Wrong number of coordinates or atoms in frame"), rest, frame, true)
    ensures NextAsWritten(l + "\n" + rest, natoms, frame, store, parse).status == Panicked(NilDereference)
  {
    ReadLineOf(l, rest);
    assert (l + "\n")[..|l + "\n"| - 1] == l;
  }

  /** The two-field line `1 2` has not three fields. */
  lemma TwoFields()
    ensures '\n' !in "1 2" && Fields("1 2") == ["1", "2"]
  {
    assert Join(["1", "2"], " ") == "1 2" by {
      assert ["1", "2"][1..] == ["2"];
    }
    assert NoSep("1", GoSpace) && NoSep("2", GoSpace);
    FieldsOfJoin(["1", "2"], ' ', "", GoSpace);
    assert "1 2" + "" == "1 2";
  }

  /** The end of the stream where a frame would start is the end of the
      trajectory, unless there are no atoms to read. */
  lemma EndOfTrajectory(natoms: int, frame: seq<real>, store: bool, parse: string -> Option<real>)
    requires store ==> 3 * natoms <= |frame|
    ensures NextFrame("", 0, natoms, frame, store, parse)
            == if natoms > 0 then Scanned(LastFrame, "", frame, false)
               else Scanned(Failed("Can't read the frame termination markEOF"), "", frame, false)
  {
  }

  /** A header with one entry: `New` as written panics where the corrected
      one opens it. */
  lemma EntryPanicExample()
    ensures OpenAsWritten("a=b\n** 1\n") == Panic(NilMapWrite)
    ensures Open("a=b\n** 1\n") == Ok(Opened("", map["a" := "b"], 1))
  {
    var m := map["a" := "b"];
    assert Ordering(["a"], m);
    assert PlainMap(m);
    assert IntText(1) == "1";
    assert HeaderText(Some(m), ["a"], 1) + "" == "a=b\n** 1\n";
    HeaderAsWritten(Some(m), ["a"], 1, "");
    HeaderRoundTrip(Some(m), ["a"], 1, "");
  }

  /** A first line holding `**` but a single field: `New` as written
      panics where the corrected one reports the line. */
  lemma ShortSentinelAsWritten(l: string, rest: string)
    requires '\n' !in l && Contains(l, "**") && |Fields(l)| < 2
    ensures OpenAsWritten(l + "\n" + rest) == Panic(NilDereference)
    ensures Open(l + "\n" + rest) == Err("Can't read atom number from '" + l + "'")
  {
    ReadLineOf(l, rest);
    TrimNewline(l);
  }

  /** The line `**` is such a line. */
  lemma BareSentinel()
    ensures '\n' !in "**" && Contains("**", "**") && Fields("**") == ["**"]
  {
    assert ("**")[..2] == "**";
    assert NoSep("**", GoSpace);
    FieldsOfJoin(["**"], ' ', "", GoSpace);
    assert "**" + "" == "**";
  }
}
