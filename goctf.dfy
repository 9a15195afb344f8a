/** The Go compressed-XYZ codec of `traj/ctf/stf.go`. Every frame the writer
    emits starts with an atom-count line and a second line: in the first
    frame the header entries `k=v`, each followed by `**`, in the others an
    empty line. Then comes one line per atom: its symbol and three
    fixed-point coordinates. There is no frame terminator. The reader takes
    the first two lines when it opens the stream and skips them in every
    later frame. A stream is the text it carries once decompressed. */
module GoCtf {
  import opened Wrappers
  import opened Text
  import opened Numbers
  import GoStf

  // ---------------------------------------------------------------------
  // Writing

  /** The symbol `NewWriter` keeps for an atom: its own, or `X` for an
      atom without one. */
  function Symbol(name: string): (r: string)
    ensures r != []
    ensures name != [] ==> r == name
    ensures name == [] ==> r == "X"
  {
    if name == [] then "X" else name
  }

  /** The `k=v` texts of a header, in the order of one `range` over it. */
  function HeaderEntries(m: map<string, string>, order: seq<string>): (r: seq<string>)
    requires forall i :: 0 <= i < |order| ==> order[i] in m
    ensures |r| == |order| && forall i :: 0 <= i < |order| ==> r[i] == order[i] + "=" + m[order[i]]
  {
    seq(|order|, i requires 0 <= i < |order| => order[i] + "=" + m[order[i]])
  }

  /** The second line of the first frame: the entries and `"\n"` joined by
      `**`, so every entry is followed by `**`. */
  function HeaderLine(m: map<string, string>, order: seq<string>): (r: string)
    requires forall i :: 0 <= i < |order| ==> order[i] in m
    ensures |r| > 0 && r[|r| - 1] == '\n'
    ensures order == [] ==> r == "\n"
  {
    var es := HeaderEntries(m, order);
    if es != [] then JoinSnoc(es, "\n", "**"); Join(es + ["\n"], "**")
    else assert es + ["\n"] == ["\n"]; Join(es + ["\n"], "**")
  }

  /** One atom line: the symbol, the three `FormatFloat(x, 'f', 3, 64)`
      words and `"\n"`, joined by blanks. */
  function AtomLine(sym: string, v: GoStf.Vec3): string {
    Join([sym] + GoStf.RowWords(v) + ["\n"], " ")
  }

  /** An atom line starts with the symbol and a blank and ends the line. */
  lemma AtomLineShape(sym: string, v: GoStf.Vec3)
    ensures var r := AtomLine(sym, v); HasPrefix(r, sym + " ") && r[|r| - 1] == '\n'
  {
    var ws := GoStf.RowWords(v);
    assert [sym] + ws + ["\n"] == [sym] + (ws + ["\n"]);
    JoinCons(sym, ws + ["\n"], " ");
    JoinSnoc(ws, "\n", " ");
  }

  /** The atom lines of rows `i..`, row `r` with symbol `syms[r]`. */
  function AtomLines(syms: seq<string>, rows: seq<GoStf.Vec3>, i: nat): string
    requires i <= |rows| <= |syms|
    decreases |rows| - i
  {
    if i == |rows| then "" else AtomLine(syms[i], rows[i]) + AtomLines(syms, rows, i + 1)
  }

  /** A whole frame: the atom count, the second line `head`, the atoms. */
  function FrameText(natoms: int, head: string, syms: seq<string>, rows: seq<GoStf.Vec3>): (r: string)
    requires |rows| <= |syms|
    ensures ReadLine(r) == Line(IntText(natoms) + "\n", head + AtomLines(syms, rows, 0), false)
  {
    var w := IntText(natoms);
    IntTextWord(natoms);
    NumberWordPlain(w);
    ReadLineOf(w, head + AtomLines(syms, rows, 0));
    AppendAssoc(w + "\n", head, AtomLines(syms, rows, 0));
    w + "\n" + head + AtomLines(syms, rows, 0)
  }

  /** The second line `WNext` writes: the header in the first frame, an
      empty line in the others. */
  function SecondLine(frames: nat, header: map<string, string>, order: seq<string>): string
    requires frames == 0 ==> GoStf.Ordering(order, header)
  {
    if frames == 0 then HeaderLine(header, order) else "\n"
  }

  /** A write-mode trajectory, `CsfW`. */
  class Writer {
    /** The text written to the compressed stream so far. */
    var out: string
    const natoms: int
    var writeable: bool
    const symbols: seq<string>
    const header: map<string, string>
    /** The number of frames written. */
    var frames: nat

    /** `NewWriter(name, mol, header)`: one symbol per atom of `mol`, whose
        symbols are `names`; nothing is written yet. A nil header is the
        empty map. */
    constructor (names: seq<string>, header: map<string, string>)
      ensures out == "" && natoms == |names| && writeable && frames == 0 && this.header == header
      ensures |symbols| == |names| && forall i :: 0 <= i < |names| ==> symbols[i] == Symbol(names[i])
    {
      var syms: seq<string> := [];
      var i := 0;
      while i < |names|
        invariant 0 <= i <= |names| && |syms| == i
        invariant forall j :: 0 <= j < i ==> syms[j] == Symbol(names[j])
      {
        var sym := names[i];
        if sym == "" {
          sym := "X";
        }
        syms := syms + [sym];
        i := i + 1;
      }
      symbols := syms;
      natoms := |names|;
      writeable := true;
      this.header := header;
      out := "";
      frames := 0;
    }

    /** `WNext(coord)`: writes the frame unless `WriteError` names an
        error, which it then returns; `order` is the order in which the
        first frame ranges over the header. */
    method WNext(coord: Option<seq<GoStf.Vec3>>, order: seq<string>) returns (err: Option<string>)
      requires frames == 0 ==> GoStf.Ordering(order, header)
      requires |symbols| == natoms
      modifies this
      ensures err == GoStf.WriteError(old(writeable), coord, natoms)
      ensures out == old(out) + (if err.None? then FrameText(natoms, SecondLine(old(frames), header, order), symbols, coord.value) else "")
      ensures frames == old(frames) + (if err.None? then 1 else 0)
      ensures writeable == old(writeable)
    {
      err := GoStf.WriteError(writeable, coord, natoms);
      if err.Some? {
        return;
      }
      var head := if frames == 0 then Join(HeaderEntries(header, order) + ["\n"], "**") else "\n";
      ghost var start := out;
      out := out + (IntText(natoms) + "\n" + head);
      WriteAtoms(coord.value);
      AppendAssoc(start, IntText(natoms) + "\n" + head, AtomLines(symbols, coord.value, 0));
      frames := frames + 1;
    }

    /** The atom loop of `WNext`. */
    method WriteAtoms(rows: seq<GoStf.Vec3>)
      requires |rows| <= |symbols|
      modifies this
      ensures out == old(out) + AtomLines(symbols, rows, 0)
      ensures writeable == old(writeable) && frames == old(frames)
    {
      var text := AtomsText(symbols, rows);
      out := out + text;
    }

    /** `Close()`: the writer stops being writeable; what was written stays. */
    method Close()
      modifies this
      ensures !writeable && out == old(out) && frames == old(frames)
    {
      writeable := false;
    }
  }

  /** One more atom line of the text. */
  lemma AtomLinesStep(syms: seq<string>, rows: seq<GoStf.Vec3>, i: nat, text: string)
    requires i < |rows| <= |syms|
    ensures text + AtomLines(syms, rows, i) == (text + AtomLine(syms[i], rows[i])) + AtomLines(syms, rows, i + 1)
  {
    AppendAssoc(text, AtomLine(syms[i], rows[i]), AtomLines(syms, rows, i + 1));
  }

  /** No atom lines are left after the last row. */
  lemma AtomLinesDone(syms: seq<string>, rows: seq<GoStf.Vec3>, i: nat, text: string, all: string)
    requires i == |rows| <= |syms| && text + AtomLines(syms, rows, i) == all
    ensures text == all
  {
    assert text + "" == text;
  }

  /** The text of the atom loop of `WNext`, line after line. */
  method AtomsText(syms: seq<string>, rows: seq<GoStf.Vec3>) returns (text: string)
    requires |rows| <= |syms|
    ensures text == AtomLines(syms, rows, 0)
  {
    text := "";
    var i := 0;
    while i < |rows|
      invariant 0 <= i <= |rows|
      invariant text + AtomLines(syms, rows, i) == AtomLines(syms, rows, 0)
    {
      var strs := [syms[i]] + GoStf.RowWords(rows[i]) + ["\n"];
      var str := Join(strs, " ");
      AtomLinesStep(syms, rows, i, text);
      text := text + str;
      i := i + 1;
    }
    AtomLinesDone(syms, rows, i, text, AtomLines(syms, rows, 0));
  }

  // ---------------------------------------------------------------------
  // Reading

  /** What `New` establishes: the unread text after the first two lines,
      the header map and the atom count. */
  datatype Opened = Opened(rest: string, header: map<string, string>, natoms: int)

  /** The header loop of `New` over the `**`-separated parts of the second
      line: a part that splits at `=` into two or more pieces stores its
      first piece under its second; any other part is dropped. */
  function HeaderMap(parts: seq<string>, m: map<string, string>): (r: map<string, string>)
    ensures forall k :: k in m ==> k in r
    decreases |parts|
  {
    if parts == [] then m
    else
      var s := Split(parts[0], "=");
      HeaderMap(parts[1..], if |s| > 1 then m[s[0] := s[1]] else m)
  }

  /** `New` on a stream holding `s`: the atom count from the first line,
      the header from the second. A line the stream ends before is an
      error; so is a first line that is not a 64-bit integer. */
  function Open(s: string): (r: Outcome<Opened>)
    ensures !r.Panic?
    ensures r.Ok? ==> GoStf.IsInt64(r.value.natoms)
  {
    var l := ReadLine(s);
    if l.eof then Err("Can't read Atom number EOF")
    else
      var str := TrimSuffix(l.text, "\n");
      match Atoi(str)
      case None => Err("Can't parse atom number from '" + str + "': " + AtoiError(str))
      case Some(n) =>
        var h := ReadLine(l.rest);
        if h.eof then Err("Can't read header EOF")
        else Ok(Opened(h.rest, HeaderMap(Split(TrimSuffix(h.text, "\n"), "**"), map[]), n))
  }

  /** Where a call of `Next` stops: how it ended, the unread text and the
      destination's contents. */
  datatype Scanned = Scanned(status: FrameStatus, rest: string, frame: seq<real>)

  /** One step of `Next`: it goes on with the unread text and the
      destination, or the frame ends. */
  datatype Step = Going(rest: string, frame: seq<real>) | Stopped(sc: Scanned)

  /** The two lines `Next` skips in every frame after the first: the
      stream ending before the first is the end of the trajectory, before
      the second an error. Their contents are not looked at. */
  function SkipLines(s: string, framesread: nat, frame: seq<real>): (r: Step)
    ensures r.Going? ==> r.frame == frame && |r.rest| <= |s|
    ensures r.Stopped? ==> r.sc.frame == frame && !r.sc.status.Read? && !r.sc.status.Panicked?
    ensures framesread == 0 ==> r == Going(s, frame)
  {
    if framesread == 0 then Going(s, frame)
    else
      var l := ReadLine(s);
      if l.eof then Stopped(Scanned(LastFrame, l.rest, frame))
      else
        var l2 := ReadLine(l.rest);
        if l2.eof then Stopped(Scanned(Failed("Can't read frame EOF"), l2.rest, frame))
        else Going(l2.rest, frame)
  }

  /** One atom line of `Next`: the stream ending before it is the end of
      the trajectory, whatever the row; a line without exactly four fields
      is an error; the three coordinates after the symbol are parsed and
      stored when there is a destination (`store`), only counted when
      there is none. */
  function RowRead(s: string, i: nat, frame: seq<real>, store: bool, parse: string -> Option<real>): (r: Step)
    requires store ==> 3 * i + 3 <= |frame|
    ensures r.Going? ==> |r.rest| < |s| && |r.frame| == |frame| && (!store ==> r.frame == frame)
    ensures r.Stopped? ==> |r.sc.frame| == |frame| && (!store ==> r.sc.frame == frame)
    ensures r.Stopped? ==> !r.sc.status.Read? && !r.sc.status.Panicked?
  {
    var l := ReadLine(s);
    if l.eof then Stopped(Scanned(LastFrame, l.rest, frame))
    else
      var str := l.text[..|l.text| - 1];
      var coords := Fields(str);
      if |coords| != 4 then Stopped(Scanned(Failed("Wrong number of coordinates or atoms in frame: " + str), l.rest, frame))
      else if !store then Going(l.rest, frame)
      else
        var (f, e) := GoStf.SetCoords(coords[1..], i, 0, frame, parse);
        if e.Some? then Stopped(Scanned(Failed(e.value), l.rest, f))
        else Going(l.rest, f)
  }

  /** The atom lines of `Next` from row `i` on. */
  function Rows(s: string, i: nat, natoms: int, frame: seq<real>, store: bool, parse: string -> Option<real>)
    : (r: Scanned)
    requires store ==> 3 * natoms <= |frame|
    ensures |r.frame| == |frame|
    ensures !store ==> r.frame == frame
    ensures !r.status.Panicked?
    decreases if i < natoms then natoms - i else 0
  {
    if i >= natoms then Scanned(Read, s, frame)
    else match RowRead(s, i, frame, store, parse)
      case Stopped(sc) => sc
      case Going(rest, f) => Rows(rest, i + 1, natoms, f, store, parse)
  }

  /** `Next` after `framesread` frames: the two skipped lines, then the
      atom lines. */
  function NextFrame(s: string, framesread: nat, natoms: int, frame: seq<real>, store: bool,
                     parse: string -> Option<real>): (r: Scanned)
    requires store ==> 3 * natoms <= |frame|
    ensures |r.frame| == |frame|
    ensures !store ==> r.frame == frame
    ensures !r.status.Panicked?
  {
    match SkipLines(s, framesread, frame)
    case Stopped(sc) => sc
    case Going(rest, _) => Rows(rest, 0, natoms, frame, store, parse)
  }

  /** A read-mode trajectory, `CsfR`. `New` never sets `readable`, so it
      stays false and `Close` does nothing. */
  class Reader {
    /** The text not yet read from the decompressed stream. */
    var rest: string
    var readable: bool
    const natoms: int
    /** `strconv.ParseFloat` on a field. */
    const parse: string -> Option<real>
    /** The number of frames read. */
    var framesread: nat

    constructor (o: Opened, parse: string -> Option<real>)
      ensures rest == o.rest && natoms == o.natoms && !readable && framesread == 0 && this.parse == parse
    {
      rest, natoms, readable, framesread := o.rest, o.natoms, false, 0;
      this.parse := parse;
    }

    /** `Next(c)`: reads one frame into `c` as `NextFrame` says, `store`
        being whether `c` is non-nil; a frame read counts. */
    method Next(c: array<real>, store: bool) returns (st: FrameStatus)
      requires store ==> 3 * natoms <= c.Length
      modifies this, c
      ensures var sc := NextFrame(old(rest), old(framesread), natoms, old(c[..]), store, parse);
              st == sc.status && rest == sc.rest && c[..] == sc.frame
      ensures framesread == old(framesread) + (if st.Read? then 1 else 0)
      ensures readable == (old(readable) && !st.LastFrame?)
    {
      ghost var s0 := rest;
      var stop := SkipFrameStart(c);
      if stop.Some? {
        return stop.value;
      }
      ghost var goal := Rows(rest, 0, natoms, c[..], store, parse);
      assert NextFrame(s0, framesread, natoms, c[..], store, parse) == goal;
      var i: nat := 0;
      while i < natoms
        invariant Rows(rest, i, natoms, c[..], store, parse) == goal
        invariant readable == old(readable) && framesread == old(framesread)
        decreases natoms - i
      {
        var stopRow := ReadRow(c, i, store);
        if stopRow.Some? {
          return stopRow.value;
        }
        i := i + 1;
      }
      framesread := framesread + 1;
      return Read;
    }

    /** The two lines skipped after the first frame, as `SkipLines` says. */
    method SkipFrameStart(c: array<real>) returns (stop: Option<FrameStatus>)
      modifies this
      ensures framesread == old(framesread)
      ensures match SkipLines(old(rest), framesread, c[..])
              case Going(rs, _) => stop == None && rest == rs
              case Stopped(sc) => stop == Some(sc.status) && rest == sc.rest
      ensures readable == (old(readable) && !(stop.Some? && stop.value.LastFrame?))
    {
      if framesread > 0 {
        var l := ReadLine(rest);
        rest := l.rest;
        if l.eof {
          Close();
          return Some(LastFrame);
        }
        var l2 := ReadLine(rest);
        rest := l2.rest;
        if l2.eof {
          return Some(Failed("Can't read frame EOF"));
        }
      }
      stop := None;
    }

    /** One pass of the atom loop of `Next`, as `RowRead` says. */
    method ReadRow(c: array<real>, i: nat, store: bool) returns (stop: Option<FrameStatus>)
      requires store ==> 3 * i + 3 <= c.Length
      modifies this, c
      ensures framesread == old(framesread)
      ensures match RowRead(old(rest), i, old(c[..]), store, parse)
              case Going(rs, f) => stop == None && rest == rs && c[..] == f
              case Stopped(sc) => stop == Some(sc.status) && rest == sc.rest && c[..] == sc.frame
      ensures readable == (old(readable) && !(stop.Some? && stop.value.LastFrame?))
    {
      var l := ReadLine(rest);
      rest := l.rest;
      if l.eof {
        Close();
        return Some(LastFrame);
      }
      var str := l.text[..|l.text| - 1];
      var coords := Fields(str);
      if |coords| != 4 {
        return Some(Failed("Wrong number of coordinates or atoms in frame: " + str));
      }
      if store {
        var e := SetRow(c, coords[1..], i);
        if e.Some? {
          return Some(Failed(e.value));
        }
      }
      stop := None;
    }

    /** The `c.Set(i, j, n)` loop over the three coordinates of row `i`. */
    method SetRow(c: array<real>, coords: seq<string>, i: nat) returns (err: Option<string>)
      requires |coords| == 3 && 3 * i + 3 <= c.Length
      modifies c
      ensures (c[..], err) == GoStf.SetCoords(coords, i, 0, old(c[..]), parse)
    {
      var j := 0;
      while j < 3
        invariant 0 <= j <= 3
        invariant GoStf.SetCoords(coords, i, j, c[..], parse) == GoStf.SetCoords(coords, i, 0, old(c[..]), parse)
      {
        var n := parse(coords[j]);
        if n.None? {
          return Some(GoStf.Unparseable + ParseFloatError(coords[j]));
        }
        c[3 * i + j] := n.value;
        j := j + 1;
      }
      err := None;
    }

    /** `Close()`: only a readable reader is closed. */
    method Close()
      modifies this
      ensures !readable && rest == old(rest) && framesread == old(framesread)
    {
      if readable {
        readable := false;
      }
    }
  }

  /** `New(name)` on a stream that holds `s`, as `Open` says: the reader
      and the header map, or the error. */
  method New(s: string, parse: string -> Option<real>) returns (r: Outcome<(Reader, map<string, string>)>)
    ensures !r.Panic?
    ensures r.Ok? <==> Open(s).Ok?
    ensures r.Err? ==> Open(s) == Err(r.msg)
    ensures r.Ok? ==> fresh(r.value.0) && r.value.0.rest == Open(s).value.rest
                      && r.value.0.natoms == Open(s).value.natoms && r.value.1 == Open(s).value.header
                      && r.value.0.framesread == 0 && r.value.0.parse == parse
  {
    var l := ReadLine(s);
    if l.eof {
      return Err("Can't read Atom number EOF");
    }
    var str := TrimSuffix(l.text, "\n");
    var n := Atoi(str);
    if n.None? {
      return Err("Can't parse atom number from '" + str + "': " + AtoiError(str));
    }
    var h := ReadLine(l.rest);
    if h.eof {
      return Err("Can't read header EOF");
    }
    var parts := Split(TrimSuffix(h.text, "\n"), "**");
    var m: map<string, string> := map[];
    var i := 0;
    while i < |parts|
      invariant 0 <= i <= |parts|
      invariant HeaderMap(parts[i..], m) == HeaderMap(parts, map[])
    {
      assert parts[i..][1..] == parts[i + 1..];
      var kv := Split(parts[i], "=");
      if |kv| > 1 {
        m := m[kv[0] := kv[1]];
      }
      i := i + 1;
    }
    assert parts[i..] == [];
    var reader := new Reader(Opened(h.rest, m, n.value), parse);
    return Ok((reader, m));
  }

  // ---------------------------------------------------------------------
  // Reading back what the writer wrote: the first two lines

  /** The `k=v` texts of a plain header hold no newline and no `*`. */
  lemma EntriesPlain(m: map<string, string>, order: seq<string>)
    requires GoStf.PlainMap(m) && forall i :: 0 <= i < |order| ==> order[i] in m
    ensures var es := HeaderEntries(m, order) + [""];
            forall i :: 0 <= i < |es| ==> '\n' !in es[i] && '*' !in es[i]
  {
    var es := HeaderEntries(m, order) + [""];
    forall i | 0 <= i < |es|
      ensures '\n' !in es[i] && '*' !in es[i]
    {
      if i < |order| {
        assert GoStf.Plain(order[i]) && GoStf.Plain(m[order[i]]);
      }
    }
  }

  /** The second line of the first frame is the entries joined by `**`
      after each of them, then the newline; that text holds no newline
      and splits at `**` back into the entries and an empty last part. */
  lemma HeaderLineText(m: map<string, string>, order: seq<string>)
    requires GoStf.PlainMap(m) && forall i :: 0 <= i < |order| ==> order[i] in m
    ensures var j := Join(HeaderEntries(m, order) + [""], "**");
            HeaderLine(m, order) == j + "\n" && '\n' !in j && Split(j, "**") == HeaderEntries(m, order) + [""]
  {
    var es := HeaderEntries(m, order);
    if es == [] {
      assert es + ["\n"] == ["\n"] && es + [""] == [""];
    } else {
      JoinSnoc(es, "\n", "**");
      JoinSnoc(es, "", "**");
      assert Join(es, "**") + "**" + "" == Join(es, "**") + "**";
    }
    EntriesPlain(m, order);
    JoinAvoids(es + [""], "**", '\n');
    SplitOfJoin(es + [""], "**");
  }

  /** The header loop of `New` over the written entries stores each of
      them; the empty last part is dropped. */
  lemma {:induction false} HeaderMapOfEntries(m: map<string, string>, order: seq<string>, acc: map<string, string>)
    requires GoStf.PlainMap(m) && forall i :: 0 <= i < |order| ==> order[i] in m
    ensures HeaderMap(HeaderEntries(m, order) + [""], acc) == GoStf.Extend(acc, m, order)
    decreases |order|
  {
    var es := HeaderEntries(m, order) + [""];
    if order == [] {
      assert es == [""];
      SplitOfJoin([""], "=");
      assert es[1..] == [];
    } else {
      var k := order[0];
      GoStf.EntryText(k, m[k]);
      assert es[0] == k + "=" + m[k];
      assert es[1..] == HeaderEntries(m, order[1..]) + [""];
      HeaderMapOfEntries(m, order[1..], acc[k := m[k]]);
    }
  }

  /** The first two lines of a stream: a 64-bit atom count, then a line
      without a newline. */
  lemma FirstLines(natoms: int, j: string, body: string)
    requires GoStf.IsInt64(natoms) && '\n' !in j
    ensures Open(IntText(natoms) + "\n" + (j + "\n" + body))
            == Ok(Opened(body, HeaderMap(Split(j, "**"), map[]), natoms))
  {
    var w := IntText(natoms);
    IntTextWord(natoms);
    NumberWordPlain(w);
    ReadLineOf(w, j + "\n" + body);
    GoStf.TrimNewline(w);
    ParseIntText(natoms);
    ReadLineOf(j, body);
    GoStf.TrimNewline(j);
  }

  /** `New`, as written, opens what the first frame starts with: the atom
      count and the header map come back; the atoms are left unread. */
  lemma OpenRoundTrip(m: map<string, string>, order: seq<string>, natoms: int, body: string)
    requires GoStf.Ordering(order, m) && GoStf.PlainMap(m) && GoStf.IsInt64(natoms)
    ensures Open(IntText(natoms) + "\n" + HeaderLine(m, order) + body) == Ok(Opened(body, m, natoms))
  {
    var j := Join(HeaderEntries(m, order) + [""], "**");
    HeaderLineText(m, order);
    AppendAssoc(IntText(natoms) + "\n", HeaderLine(m, order), body);
    FirstLines(natoms, j, body);
    HeaderMapOfEntries(m, order, map[]);
    GoStf.ExtendAll(m, order);
  }

  // ---------------------------------------------------------------------
  // Reading back what the writer wrote: the atoms

  /** An atom line of four fields whose coordinates all parse is stored
      (or, without a destination, counted). */
  lemma AtomLineRead(l: string, rest: string, i: nat, frame: seq<real>, store: bool, parse: string -> Option<real>)
    requires '\n' !in l && |Fields(l)| == 4 && (store ==> 3 * i + 3 <= |frame|)
    requires store ==> GoStf.SetCoords(Fields(l)[1..], i, 0, frame, parse).1 == None
    ensures RowRead(l + "\n" + rest, i, frame, store, parse)
            == Going(rest, if store then GoStf.SetCoords(Fields(l)[1..], i, 0, frame, parse).0 else frame)
  {
    ReadLineOf(l, rest);
    assert (l + "\n")[..|l + "\n"| - 1] == l;
  }

  /** One written atom line, of a symbol without blanks or newlines, is
      read and, with a destination, stored. */
  lemma WrittenAtomRead(sym: string, v: GoStf.Vec3, rest: string, i: nat, frame: seq<real>, store: bool,
                        parse: string -> Option<real>)
    requires GoStf.PlainWords([sym]) && ReadsDecimals(parse) && (store ==> 3 * i + 3 <= |frame|)
    ensures RowRead(AtomLine(sym, v) + rest, i, frame, store, parse)
            == Going(rest, if store then GoStf.StoredRow(frame, i, v) else frame)
  {
    var ws := [sym] + GoStf.RowWords(v);
    GoStf.RowWordsPlain(v);
    assert GoStf.PlainWords(ws) by {
      forall k | 0 <= k < |ws|
        ensures ws[k] != [] && NoSep(ws[k], GoSpace) && '\n' !in ws[k]
      {
        if k > 0 {
          assert ws[k] == GoStf.RowWords(v)[k - 1];
        }
      }
    }
    GoStf.WordsLineText(ws);
    GoStf.WordsLineFields(ws);
    var l := Join(ws, " ") + " ";
    assert Fields(l)[1..] == GoStf.RowWords(v);
    if store {
      GoStf.SetCoordsRow(v, i, frame, parse);
    }
    AtomLineRead(l, rest, i, frame, store, parse);
  }

  /** An atom line read without stopping leads on to the next row. */
  lemma RowsGoing(s: string, i: nat, natoms: int, frame: seq<real>, store: bool, parse: string -> Option<real>,
                  rest: string, f: seq<real>)
    requires i < natoms && (store ==> 3 * natoms <= |frame|)
    requires RowRead(s, i, frame, store, parse) == Going(rest, f)
    ensures Rows(s, i, natoms, frame, store, parse) == Rows(rest, i + 1, natoms, f, store, parse)
  {
  }

  /** The atom lines from row `i`: the line of row `i`, then the others. */
  lemma AtomLinesNext(syms: seq<string>, rows: seq<GoStf.Vec3>, i: nat, tail: string)
    requires i < |rows| <= |syms|
    ensures AtomLines(syms, rows, i) + tail == AtomLine(syms[i], rows[i]) + (AtomLines(syms, rows, i + 1) + tail)
  {
    AppendAssoc(AtomLine(syms[i], rows[i]), AtomLines(syms, rows, i + 1), tail);
  }

  /** The atom lines `i..` of a written frame are read, whatever comes
      after them; `natoms` may exceed the number of rows written. */
  lemma AtomsScan(syms: seq<string>, rows: seq<GoStf.Vec3>, i: nat, natoms: int, tail: string,
                  frame: seq<real>, store: bool, parse: string -> Option<real>)
    requires GoStf.PlainWords(syms) && ReadsDecimals(parse)
    requires i <= |rows| <= |syms| && |rows| <= natoms && (store ==> 3 * natoms <= |frame|)
    ensures Rows(AtomLines(syms, rows, i) + tail, i, natoms, frame, store, parse)
            == Rows(tail, |rows|, natoms, if store then GoStf.StoredFrame(rows, i, frame) else frame, store, parse)
  {
    if store {
      AtomsStored(syms, rows, i, natoms, tail, frame, parse);
    } else {
      AtomsPassed(syms, rows, i, natoms, AtomLines(syms, rows, i) + tail, tail, frame, parse);
    }
  }

  /** `AtomsScan` when the frame is stored. */
  lemma {:induction false} AtomsStored(syms: seq<string>, rows: seq<GoStf.Vec3>, i: nat, natoms: int, tail: string,
                                       frame: seq<real>, parse: string -> Option<real>)
    requires GoStf.PlainWords(syms) && ReadsDecimals(parse)
    requires i <= |rows| <= |syms| && |rows| <= natoms && 3 * natoms <= |frame|
    ensures Rows(AtomLines(syms, rows, i) + tail, i, natoms, frame, true, parse)
            == Rows(tail, |rows|, natoms, GoStf.StoredFrame(rows, i, frame), true, parse)
    decreases |rows| - i
  {
    if i == |rows| {
      assert AtomLines(syms, rows, i) + tail == tail;
    } else {
      AtomScanStep(syms, rows, i, natoms, tail, frame, true, parse);
      var f := GoStf.StoredRow(frame, i, rows[i]);
      AtomsStored(syms, rows, i + 1, natoms, tail, f, parse);
      assert GoStf.StoredFrame(rows, i, frame) == GoStf.StoredFrame(rows, i + 1, f);
    }
  }

  /** `AtomsScan` when the frame is only checked; `s` is the text read. */
  lemma {:induction false} AtomsPassed(syms: seq<string>, rows: seq<GoStf.Vec3>, i: nat, natoms: int, s: string,
                                       tail: string, frame: seq<real>, parse: string -> Option<real>)
    requires GoStf.PlainWords(syms) && ReadsDecimals(parse)
    requires i <= |rows| <= |syms| && |rows| <= natoms && s == AtomLines(syms, rows, i) + tail
    ensures Rows(s, i, natoms, frame, false, parse) == Rows(tail, |rows|, natoms, frame, false, parse)
    decreases |rows| - i
  {
    if i == |rows| {
      assert s == tail;
    } else {
      var x := AtomLines(syms, rows, i + 1) + tail;
      AtomScanStep(syms, rows, i, natoms, tail, frame, false, parse);
      AtomsPassed(syms, rows, i + 1, natoms, x, tail, frame, parse);
    }
  }

  /** One atom line of a written frame read: on to the next row. */
  lemma AtomScanStep(syms: seq<string>, rows: seq<GoStf.Vec3>, i: nat, natoms: int, tail: string,
                     frame: seq<real>, store: bool, parse: string -> Option<real>)
    requires GoStf.PlainWords(syms) && ReadsDecimals(parse)
    requires i < |rows| <= |syms| && |rows| <= natoms && (store ==> 3 * natoms <= |frame|)
    ensures Rows(AtomLines(syms, rows, i) + tail, i, natoms, frame, store, parse)
            == Rows(AtomLines(syms, rows, i + 1) + tail, i + 1, natoms,
                    if store then GoStf.StoredRow(frame, i, rows[i]) else frame, store, parse)
  {
    var x := AtomLines(syms, rows, i + 1) + tail;
    AtomLinesNext(syms, rows, i, tail);
    assert GoStf.PlainWords([syms[i]]);
    WrittenAtomRead(syms[i], rows[i], x, i, frame, store, parse);
    var f := if store then GoStf.StoredRow(frame, i, rows[i]) else frame;
    RowsGoing(AtomLines(syms, rows, i) + tail, i, natoms, frame, store, parse, x, f);
  }

  /** The first frame, after `New` took its first two lines, is read
      whole and stored as the writer's rows round to three decimals. */
  lemma FirstFrameRoundTrip(syms: seq<string>, rows: seq<GoStf.Vec3>, tail: string, frame: seq<real>, store: bool,
                            parse: string -> Option<real>)
    requires GoStf.PlainWords(syms) && ReadsDecimals(parse)
    requires |rows| <= |syms| && (store ==> 3 * |rows| <= |frame|)
    ensures NextFrame(AtomLines(syms, rows, 0) + tail, 0, |rows|, frame, store, parse)
            == Scanned(Read, tail, if store then GoStf.StoredFrame(rows, 0, frame) else frame)
  {
    AtomsScan(syms, rows, 0, |rows|, tail, frame, store, parse);
  }

  /** The two lines a later frame starts with are skipped. */
  lemma SkipWritten(natoms: int, body: string, framesread: nat, frame: seq<real>)
    requires framesread > 0
    ensures SkipLines(IntText(natoms) + "\n" + ("" + "\n" + body), framesread, frame) == Going(body, frame)
  {
    var w := IntText(natoms);
    IntTextWord(natoms);
    NumberWordPlain(w);
    ReadLineOf(w, "" + "\n" + body);
    ReadLineOf("", body);
  }

  /** A later frame's text regrouped as its two skipped lines and the rest. */
  lemma LaterFrameText(natoms: int, atoms: string, tail: string)
    ensures IntText(natoms) + "\n" + "\n" + atoms + tail == IntText(natoms) + "\n" + ("" + "\n" + (atoms + tail))
  {
  }

  /** Any later frame the writer wrote is read the same way, its first
      two lines skipped. */
  lemma LaterFrameRoundTrip(syms: seq<string>, rows: seq<GoStf.Vec3>, framesread: nat, tail: string,
                            frame: seq<real>, store: bool, parse: string -> Option<real>)
    requires GoStf.PlainWords(syms) && ReadsDecimals(parse) && framesread > 0
    requires |rows| <= |syms| && (store ==> 3 * |rows| <= |frame|)
    ensures NextFrame(FrameText(|rows|, "\n", syms, rows) + tail, framesread, |rows|, frame, store, parse)
            == Scanned(Read, tail, if store then GoStf.StoredFrame(rows, 0, frame) else frame)
  {
    var body := AtomLines(syms, rows, 0) + tail;
    LaterFrameText(|rows|, AtomLines(syms, rows, 0), tail);
    SkipWritten(|rows|, body, framesread, frame);
    AtomsScan(syms, rows, 0, |rows|, tail, frame, store, parse);
  }

  /** What the writer writes as its first frame is opened and read back:
      the atom count, the header map, and the rows round to three
      decimals. */
  lemma TrajectoryRoundTrip(m: map<string, string>, order: seq<string>, syms: seq<string>, rows: seq<GoStf.Vec3>,
                            tail: string, frame: seq<real>, store: bool, parse: string -> Option<real>)
    requires GoStf.Ordering(order, m) && GoStf.PlainMap(m) && GoStf.PlainWords(syms)
    requires GoStf.IsInt64(|rows|) && ReadsDecimals(parse)
    requires |rows| <= |syms| && (store ==> 3 * |rows| <= |frame|)
    ensures var o := Open(FrameText(|rows|, SecondLine(0, m, order), syms, rows) + tail);
            o == Ok(Opened(AtomLines(syms, rows, 0) + tail, m, |rows|))
            && NextFrame(o.value.rest, 0, |rows|, frame, store, parse)
               == Scanned(Read, tail, if store then GoStf.StoredFrame(rows, 0, frame) else frame)
  {
    var pre := IntText(|rows|) + "\n" + HeaderLine(m, order);
    AppendAssoc(pre, AtomLines(syms, rows, 0), tail);
    OpenRoundTrip(m, order, |rows|, AtomLines(syms, rows, 0) + tail);
    FirstFrameRoundTrip(syms, rows, tail, frame, store, parse);
  }

  /** A frame the stream ends in the middle of reads as the end of the
      trajectory, not as an error: the rows before the cut are stored. */
  lemma TruncatedFrame(syms: seq<string>, rows: seq<GoStf.Vec3>, natoms: int, frame: seq<real>, store: bool,
                       parse: string -> Option<real>)
    requires GoStf.PlainWords(syms) && ReadsDecimals(parse)
    requires |rows| <= |syms| && |rows| < natoms && (store ==> 3 * natoms <= |frame|)
    ensures NextFrame(AtomLines(syms, rows, 0), 0, natoms, frame, store, parse)
            == Scanned(LastFrame, "", if store then GoStf.StoredFrame(rows, 0, frame) else frame)
  {
    AtomsScan(syms, rows, 0, natoms, "", frame, store, parse);
    assert AtomLines(syms, rows, 0) + "" == AtomLines(syms, rows, 0);
  }

  /** At the end of the stream `Next` reports the last frame, unless it
      has neither lines to skip nor atoms to read. */
  lemma EndOfTrajectory(framesread: nat, natoms: int, frame: seq<real>, store: bool, parse: string -> Option<real>)
    requires framesread > 0 || natoms > 0
    requires store ==> 3 * natoms <= |frame|
    ensures NextFrame("", framesread, natoms, frame, store, parse) == Scanned(LastFrame, "", frame)
  {
  }
}
