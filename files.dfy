/** The PDB and XYZ text helpers of `files.go`: guessing an element from a
    PDB atom name, checking b-factors against coordinate sets, writing
    ATOM/HETATM records and whole PDB texts, and reading one XYZ snapshot
    from a text stream. */
module Files {
  import opened Wrappers
  import opened Text
  import opened Numbers
  import opened Atoms
  import GoStf

  // The messages of the errors and panics, as the Go code and runtime
  // word them.
  const NoSymbol := "Couldn't guess symbol from PDB name"
  const IndexPanic := "index out of range [0] with length 0"
  const LongName := "Cant print PDB line"
  const Mismatch := "Ref and Coords and/or Bfactors dont have the same number of atoms"
  const LineFailed := "Could not print PDB line: "
  const EmptyFile := "Empty XYZ File: EOF"
  const WrongHeader := "Wrong header for an XYZ file "
  const BadLength := "makeslice: len out of range"
  const NoTitle := "Ill formatted XYZ file: EOF"

  // ---------------------------------------------------------------------
  // symbolMass and symbolFromName
  // ---------------------------------------------------------------------

  /** `symbolMass`: the masses of the common bio-elements. */
  const SymbolMass: map<string, real> :=
    map["H" := 1.0, "C" := 12.01, "O" := 16.00, "N" := 14.01, "P" := 30.97, "S" := 32.06,
        "Se" := 78.96, "K" := 39.1, "Ca" := 40.08, "Mg" := 24.30, "Cl" := 35.45, "Na" := 22.99,
        "Cu" := 63.55, "Zn" := 65.38, "Co" := 58.93, "Fe" := 55.84, "Mn" := 54.94, "Si" := 28.08]

  /** Go's `name[0:2] == ab` for ASCII `a` and `b`. A non-ASCII character
      encodes to bytes of 0x80 and above only, so bytes 0 and 1 are `a` and
      `b` exactly when characters 0 and 1 are. */
  predicate Starts2(s: string, a: char, b: char) {
    |s| >= 2 && s[0] == a && s[1] == b
  }

  /** `s` with its ASCII lower-case letters upper-cased. */
  function Capitals(s: string): string {
    seq(|s|, i requires 0 <= i < |s| => Upper(s[i]))
  }

  /** `symbolFromName`: an element guessed from a PDB atom name. Go's `len`
      counts bytes; `name[0]` on the empty name panics. Byte 0 is an ASCII
      letter exactly when character 0 is that letter. */
  function SymbolFromName(name: string): (r: Outcome<string>)
    ensures r.Panic? <==> name == []
    ensures Utf8Len(name) == 1 ==> r == Ok(name)
    ensures name != [] && Utf8Len(name) != 1 && (Utf8Len(name) == 4 || name[0] == 'H') ==> r == Ok("H")
    ensures r.Err? <==> name != [] && Utf8Len(name) != 1 && Utf8Len(name) != 4
                        && name[0] !in "HCNOPS" && !Starts2(name, 'Z', 'N')
    ensures r.Err? ==> r.msg == NoSymbol
    ensures r.Ok? && Utf8Len(name) != 1 ==> r.value in SymbolMass
    ensures r.Ok? && Utf8Len(name) != 1 && Utf8Len(name) != 4 && name[0] != 'H' ==>
              Capitals(r.value) <= name
              && (|r.value| == 2 <==> Starts2(name, 'C', 'U') || Starts2(name, 'Z', 'N') || name in ["CO", "CL", "NA", "SE"])
  {
    if Utf8Len(name) == 1 then Ok(name)
    else if name == [] then Panic(IndexPanic)
    else if Utf8Len(name) == 4 || name[0] == 'H' then Ok("H")
    else if name[0] == 'C' then
      if Starts2(name, 'C', 'U') then Ok("Cu")
      else if name == "CO" then Ok("Co")
      else if name == "CL" then Ok("Cl")
      else Ok("C")
    else if name[0] == 'N' then (if name == "NA" then Ok("Na") else Ok("N"))
    else if name[0] == 'O' then Ok("O")
    else if name[0] == 'P' then Ok("P")
    else if name[0] == 'S' then (if name == "SE" then Ok("Se") else Ok("S"))
    else if Starts2(name, 'Z', 'N') then Ok("Zn")
    else Err(NoSymbol)
  }

  // ---------------------------------------------------------------------
  // correctBfactors
  // ---------------------------------------------------------------------

  /** `correctBfactors`: `rows[k]` is the number of rows of coordinate set
      `k`; a nil b-factor list is `None`. */
  method CorrectBfactors(rows: seq<nat>, bfactors: Option<seq<seq<real>>>) returns (ok: bool)
    ensures ok <==> bfactors.Some? && |rows| == |bfactors.value|
                    && forall k :: 0 <= k < |rows| ==> rows[k] == |bfactors.value[k]|
  {
    if bfactors.None? || |rows| != |bfactors.value| {
      return false;
    }
    var bf := bfactors.value;
    for k := 0 to |rows|
      invariant forall j :: 0 <= j < k ==> rows[j] == |bf[j]|
    {
      if rows[k] != |bf[k]| {
        return false;
      }
    }
    return true;
  }

  // ---------------------------------------------------------------------
  // writePDBLine
  // ---------------------------------------------------------------------

  function RecordName(a: Atom): string {
    if a.het then "HETATM" else "ATOM"
  }

  /** The numbers of a record as `fmt` renders them: the serial number and
      the residue number with `%d`, the coordinates with `%.3f`, the
      occupancy and the b-factor with `%.2f`. */
  datatype Numerals = Numerals(serial: string, resid: string, x: string, y: string, z: string,
                               occupancy: string, bfactor: string)

  function NumeralsOf(a: Atom, v: GoStf.Vec3, bfact: real): Numerals {
    Numerals(IntText(a.id), IntText(a.molId), FixedText(v.x, 3), FixedText(v.y, 3), FixedText(v.z, 3),
             FixedText(a.occupancy, 2), FixedText(bfact, 2))
  }

  /** The atom name's part of the format: `%-3s ` or, for a name of four
      bytes, `%-4s`. */
  function NameField(name: string): string {
    if Utf8Len(name) == 4 then PadRight(name, 4) else PadRight(name, 3) + " "
  }

  /** The pieces of `writePDBLine`'s format
      `%-6s%5d  %-3s %-4s%1s%4d    %8.3f%8.3f%8.3f%6.2f%6.2f          %2s  \n`. */
  function RecordPieces(a: Atom, n: Numerals): seq<string> {
    [PadRight(RecordName(a), 6), PadLeft(n.serial, 5), "  ", NameField(a.name), PadRight(a.molName, 4),
     PadLeft(a.chain, 1), PadLeft(n.resid, 4), "    ", PadLeft(n.x, 8), PadLeft(n.y, 8), PadLeft(n.z, 8),
     PadLeft(n.occupancy, 6), PadLeft(n.bfactor, 6), "          ", PadLeft(a.symbol, 2), "  \n"]
  }

  function Concat(ps: seq<string>): string {
    if ps == [] then "" else ps[0] + Concat(ps[1..])
  }

  /** One ATOM or HETATM record: it begins with the record name, so never
      with `TER`. */
  function Record(a: Atom, n: Numerals): (r: string)
    ensures |r| >= 6 && r[..|RecordName(a)|] == RecordName(a) && r[0] != 'T'
  {
    var ps := RecordPieces(a, n);
    assert Concat(ps) == ps[0] + Concat(ps[1..]);
    assert ps[0] == PadRight(RecordName(a), 6);
    assert Concat(ps)[0] == RecordName(a)[0];
    Concat(ps)
  }

  /** `writePDBLine(atom, coord, bfact, chainprev)`, where `rec` is the
      record the format renders, `Record(atom, NumeralsOf(atom, coord,
      bfact))`: the line (or the error) and the chain passed on to the next
      atom, which is the atom's own chain in every case. */
  function WritePdbLine(a: Atom, rec: string, chainprev: string): (r: (Outcome<string>, string))
    ensures r.1 == a.chain && !r.0.Panic?
    ensures r.0.Err? <==> Utf8Len(a.name) > 4
  {
    var ter := if a.chain != chainprev then "TER\n" else "";
    if Utf8Len(a.name) > 4 then (Err(LongName), a.chain)
    else (Ok(ter + rec), a.chain)
  }

  /** A line that is written starts with `TER` exactly when the chain
      changes, and then (or at once) with the record name. */
  lemma PdbLineStart(a: Atom, n: Numerals, chainprev: string)
    requires Utf8Len(a.name) <= 4
    ensures var t := WritePdbLine(a, Record(a, n), chainprev).0.value;
      (HasPrefix(t, "TER\n") <==> a.chain != chainprev)
      && HasPrefix(t, if a.chain != chainprev then "TER\n" + RecordName(a) else RecordName(a))
  {
    TerPrefix(if a.chain != chainprev then "TER\n" else "", Record(a, n), RecordName(a));
  }

  /** A `TER` line, or nothing, in front of a text that begins with
      `name` and not with `T`. */
  lemma TerPrefix(ter: string, rec: string, name: string)
    requires ter == "" || ter == "TER\n"
    requires 1 <= |name| <= |rec| && rec[..|name|] == name && rec[0] != 'T'
    ensures (HasPrefix(ter + rec, "TER\n") <==> ter != "") && HasPrefix(ter + rec, ter + name)
  {
    var t := ter + rec;
    assert t[..|ter|] == ter && t[|ter|..] == rec;
    if ter != "" {
      assert t[..4 + |name|] == ter + rec[..|name|];
    } else {
      PrefixHead(t, "TER\n");
    }
  }

  /** A text with a non-empty prefix begins with the prefix's first character. */
  lemma PrefixHead(s: string, p: string)
    ensures HasPrefix(s, p) && p != [] ==> s[0] == p[0]
  {
    if HasPrefix(s, p) && p != [] {
      assert s[..|p|][0] == s[0];
    }
  }

  /** Every field of the atom fits its columns. */
  predicate Fits(a: Atom, n: Numerals) {
    |n.serial| <= 5 && Utf8Len(a.name) <= 4 && |a.molName| <= 4 && |a.chain| <= 1 && |n.resid| <= 4
    && |n.x| <= 8 && |n.y| <= 8 && |n.z| <= 8 && |n.occupancy| <= 6 && |n.bfactor| <= 6 && |a.symbol| <= 2
  }

  /** The column widths of a record, piece by piece. */
  const Widths: seq<nat> := [6, 5, 2, 4, 4, 1, 4, 4, 8, 8, 8, 6, 6, 10, 2, 3]

  /** A name of at most four bytes takes the four columns after the serial
      number and its two blanks, whichever format it is written with. */
  lemma NameColumns(name: string)
    requires Utf8Len(name) <= 4
    ensures NameField(name) == PadRight(name, 4)
  {
    if Utf8Len(name) != 4 {
      assert |name| <= 3;
      assert PadRight(name, 3) + " " == PadRight(name, 4);
    }
  }

  /** Where piece `k` starts: the sum of the widths before it. */
  function Offset(ws: seq<nat>, k: nat): nat
    requires k <= |ws|
  {
    if k == 0 then 0 else Offset(ws, k - 1) + ws[k - 1]
  }

  lemma {:induction false} OffsetTail(ws: seq<nat>, k: nat)
    requires 0 < k <= |ws|
    ensures Offset(ws, k) == ws[0] + Offset(ws[1..], k - 1)
    decreases k
  {
    if k > 1 {
      OffsetTail(ws, k - 1);
      assert ws[1..][k - 2] == ws[k - 1];
    }
  }

  /** Pieces of the given widths put together: piece `k` starts where the
      widths before it end. */
  lemma {:induction false} ConcatAt(ps: seq<string>, ws: seq<nat>, k: nat)
    requires |ps| == |ws| && k < |ps| && forall j :: 0 <= j < |ps| ==> |ps[j]| == ws[j]
    ensures Offset(ws, k) + ws[k] <= |Concat(ps)| && Concat(ps)[Offset(ws, k)..Offset(ws, k) + ws[k]] == ps[k]
    decreases k
  {
    var c := Concat(ps[1..]);
    assert Concat(ps) == ps[0] + c;
    if k > 0 {
      ConcatAt(ps[1..], ws[1..], k - 1);
      OffsetTail(ws, k);
      var o := Offset(ws[1..], k - 1);
      assert (ps[0] + c)[|ps[0]| + o..|ps[0]| + o + ws[k]] == c[o..o + ws[k]];
    }
  }

  lemma {:induction false} ConcatLength(ps: seq<string>, ws: seq<nat>)
    requires |ps| == |ws| && forall j :: 0 <= j < |ps| ==> |ps[j]| == ws[j]
    ensures |Concat(ps)| == Offset(ws, |ws|)
    decreases |ps|
  {
    if ps != [] {
      ConcatLength(ps[1..], ws[1..]);
      OffsetTail(ws, |ws|);
    }
  }

  /** `writePDBLine` follows the fixed columns of the PDB format: a record
      of 80 columns and a newline, with the record name in columns 1-6, the
      serial number in 7-11, the atom name in 14-17, the residue name in
      18-21, the chain in 22, the residue number in 23-26, the coordinates
      in 31-38, 39-46 and 47-54, the occupancy in 55-60, the b-factor in
      61-66 and the element in 77-78. */
  lemma RecordColumns(a: Atom, n: Numerals)
    requires Fits(a, n)
    ensures var t := Record(a, n);
      |t| == 81 && t[0..6] == PadRight(RecordName(a), 6) && t[6..11] == PadLeft(n.serial, 5)
      && t[13..17] == PadRight(a.name, 4) && t[17..21] == PadRight(a.molName, 4) && t[21..22] == PadLeft(a.chain, 1)
      && t[22..26] == PadLeft(n.resid, 4) && t[30..38] == PadLeft(n.x, 8) && t[38..46] == PadLeft(n.y, 8)
      && t[46..54] == PadLeft(n.z, 8) && t[54..60] == PadLeft(n.occupancy, 6) && t[60..66] == PadLeft(n.bfactor, 6)
      && t[76..78] == PadLeft(a.symbol, 2) && t[80] == '\n'
  {
    PiecesWidths(a, n);
    PiecesColumns(RecordPieces(a, n));
    PiecesColumnsRight(RecordPieces(a, n));
    NameColumns(a.name);
  }

  /** Each piece of a record that fits takes exactly its columns. */
  lemma PiecesWidths(a: Atom, n: Numerals)
    requires Fits(a, n)
    ensures var ps := RecordPieces(a, n);
      |ps| == |Widths| && forall j :: 0 <= j < |ps| ==> |ps[j]| == Widths[j]
  {
    NameColumns(a.name);
  }

  /** Sixteen pieces of the record's widths, put together: the columns up
      to the residue number. */
  lemma PiecesColumns(ps: seq<string>)
    requires |ps| == |Widths| && forall j :: 0 <= j < |ps| ==> |ps[j]| == Widths[j]
    ensures var t := Concat(ps);
      |t| == 81 && t[0..6] == ps[0] && t[6..11] == ps[1] && t[13..17] == ps[3] && t[17..21] == ps[4]
      && t[21..22] == ps[5] && t[22..26] == ps[6]
  {
    var w := Widths;
    WidthsOffsets();
    var t := Concat(ps);
    ConcatLength(ps, w);
    assert t[0..6] == ps[0] by { ConcatAt(ps, w, 0); }
    assert t[6..11] == ps[1] by { ConcatAt(ps, w, 1); }
    assert t[13..17] == ps[3] by { ConcatAt(ps, w, 3); }
    assert t[17..21] == ps[4] by { ConcatAt(ps, w, 4); }
    assert t[21..22] == ps[5] by { ConcatAt(ps, w, 5); }
    assert t[22..26] == ps[6] by { ConcatAt(ps, w, 6); }
  }

  /** The columns from the coordinates on. */
  lemma PiecesColumnsRight(ps: seq<string>)
    requires |ps| == |Widths| && forall j :: 0 <= j < |ps| ==> |ps[j]| == Widths[j]
    ensures var t := Concat(ps);
      |t| == 81 && t[30..38] == ps[8] && t[38..46] == ps[9] && t[46..54] == ps[10] && t[54..60] == ps[11]
      && t[60..66] == ps[12] && t[76..78] == ps[14] && t[80] == ps[15][2]
  {
    var w := Widths;
    WidthsOffsets();
    var t := Concat(ps);
    ConcatLength(ps, w);
    assert t[30..38] == ps[8] by { ConcatAt(ps, w, 8); }
    assert t[38..46] == ps[9] by { ConcatAt(ps, w, 9); }
    assert t[46..54] == ps[10] by { ConcatAt(ps, w, 10); }
    assert t[54..60] == ps[11] by { ConcatAt(ps, w, 11); }
    assert t[60..66] == ps[12] by { ConcatAt(ps, w, 12); }
    assert t[76..78] == ps[14] by { ConcatAt(ps, w, 14); }
    assert t[80] == ps[15][2] by {
      ConcatAt(ps, w, 15);
      assert t[78..81][2] == t[80];
    }
  }

  /** The columns where the pieces of a record start. */
  lemma WidthsOffsets()
    ensures Offset(Widths, 1) == 6 && Offset(Widths, 2) == 11 && Offset(Widths, 3) == 13
    ensures Offset(Widths, 4) == 17 && Offset(Widths, 5) == 21 && Offset(Widths, 6) == 22
    ensures Offset(Widths, 7) == 26 && Offset(Widths, 8) == 30 && Offset(Widths, 9) == 38
    ensures Offset(Widths, 10) == 46 && Offset(Widths, 11) == 54 && Offset(Widths, 12) == 60
    ensures Offset(Widths, 13) == 66 && Offset(Widths, 14) == 76 && Offset(Widths, 15) == 78
    ensures Offset(Widths, 16) == 81
  {
    var w := Widths;
    assert Offset(w, 1) == 6;
    assert Offset(w, 2) == 11;
    assert Offset(w, 3) == 13;
    assert Offset(w, 4) == 17;
    assert Offset(w, 5) == 21;
    assert Offset(w, 6) == 22;
    assert Offset(w, 7) == 26;
    assert Offset(w, 8) == 30;
    assert Offset(w, 9) == 38;
    assert Offset(w, 10) == 46;
    assert Offset(w, 11) == 54;
    assert Offset(w, 12) == 60;
    assert Offset(w, 13) == 66;
    assert Offset(w, 14) == 76;
    assert Offset(w, 15) == 78;
    assert Offset(w, 16) == 81;
  }

  // ---------------------------------------------------------------------
  // PDBStringWrite
  // ---------------------------------------------------------------------

  function Zeros(n: nat): (r: seq<real>)
    ensures |r| == n && forall i :: 0 <= i < n ==> r[i] == 0.0
  {
    seq(n, _ => 0.0)
  }

  /** The record of every atom, from its row of `coords` (the rows are
      stored one after the other) and its b-factor. */
  function Records(atoms: seq<Atom>, coords: seq<GoStf.Vec3>, bf: seq<real>): (recs: seq<string>)
    requires |atoms| <= |coords| && |atoms| <= |bf|
    ensures |recs| == |atoms|
  {
    seq(|atoms|, i requires 0 <= i < |atoms| => Record(atoms[i], NumeralsOf(atoms[i], coords[i], bf[i])))
  }

  /** Record `i` is atom `i`'s, with its coordinates and b-factor. */
  lemma RecordsAt(atoms: seq<Atom>, coords: seq<GoStf.Vec3>, bf: seq<real>, i: nat)
    requires i < |atoms| <= |coords| && |atoms| <= |bf|
    ensures Records(atoms, coords, bf)[i] == Record(atoms[i], NumeralsOf(atoms[i], coords[i], bf[i]))
  {
  }

  /** The loop of `PDBStringWrite` after `n` atoms, from the chain
      `chain0`: the text so far, or the error that ended the loop, and the
      chain of the last atom written. */
  function Written(atoms: seq<Atom>, recs: seq<string>, n: nat, chain0: string): (r: (Outcome<string>, string))
    requires n <= |atoms| <= |recs|
    ensures !r.0.Panic?
  {
    if n == 0 then (Ok(""), chain0)
    else
      var w := Written(atoms, recs, n - 1, chain0);
      if !w.0.Ok? then w
      else
        var l := WritePdbLine(atoms[n - 1], recs[n - 1], w.1);
        if l.0.Ok? then (Ok(w.0.value + l.0.value), l.1)
        else (Err(LineFailed + IntText(n - 1)), l.1)
  }

  /** `PDBStringWrite(coords, mol, bfact)`; a nil b-factor list is
      `None`. The chain before the first atom is the first atom's own, which
      the Go code reads with `mol.Atom(0)` even for an empty reference. */
  function PdbStringOf(coords: seq<GoStf.Vec3>, atoms: seq<Atom>, bfact: Option<seq<real>>): (r: Outcome<string>)
    ensures r.Panic? <==> |coords| == |atoms| == |Bfactors(bfact, |atoms|)| == 0
    ensures r.Ok? ==> |coords| == |atoms| > 0 && |r.value| >= 4 && r.value[|r.value| - 4..] == "END\n"
  {
    var bf := Bfactors(bfact, |atoms|);
    if |coords| != |atoms| || |coords| != |bf| then
      Err(Mismatch)
    else if atoms == [] then Panic(IndexPanic)
    else PdbText(atoms, Records(atoms, coords, bf))
  }

  /** The b-factors written: zeros for every atom when there are none. */
  function Bfactors(bfact: Option<seq<real>>, n: nat): seq<real> {
    if bfact.None? then Zeros(n) else bfact.value
  }

  /** The loop of `PDBStringWrite` over the records, then `END`. */
  function PdbText(atoms: seq<Atom>, recs: seq<string>): (r: Outcome<string>)
    requires 0 < |atoms| <= |recs|
    ensures !r.Panic?
    ensures r.Ok? ==> |r.value| >= 4 && r.value[|r.value| - 4..] == "END\n"
  {
    var w := Written(atoms, recs, |atoms|, atoms[0].chain).0;
    if w.Ok? then Ok(w.value + "END\n") else w
  }

  /** `PDBStringWrite`. */
  method PdbStringWrite(coords: seq<GoStf.Vec3>, atoms: seq<Atom>, bfact: Option<seq<real>>) returns (r: Outcome<string>)
    ensures r == PdbStringOf(coords, atoms, bfact)
  {
    var bf := Bfactors(bfact, |atoms|);
    var cr := |coords|;
    if cr != |atoms| || cr != |bf| {
      return Err(Mismatch);
    }
    if |atoms| == 0 {
      return Panic(IndexPanic);
    }
    r := WriteRecords(atoms, Records(atoms, coords, bf));
  }

  /** The loop of `PDBStringWrite` over the records. */
  method WriteRecords(atoms: seq<Atom>, recs: seq<string>) returns (r: Outcome<string>)
    requires 0 < |atoms| <= |recs|
    ensures r == PdbText(atoms, recs)
  {
    var chainprev := atoms[0].chain;
    var outstring := "";
    for i := 0 to |atoms|
      invariant Written(atoms, recs, i, atoms[0].chain) == (Ok(outstring), chainprev)
    {
      var outline, ch, err := WriteLine(atoms[i], recs[i], chainprev);
      chainprev := ch;
      if err {
        WrittenStops(atoms, recs, i + 1, |atoms|, atoms[0].chain);
        return Err(LineFailed + IntText(i));
      }
      outstring := outstring + outline;
    }
    return Ok(outstring + "END\n");
  }

  /** Once a line fails, the loop's outcome is that failure. */
  lemma {:induction false} WrittenStops(atoms: seq<Atom>, recs: seq<string>, i: nat, n: nat, chain0: string)
    requires i <= n <= |atoms| <= |recs| && !Written(atoms, recs, i, chain0).0.Ok?
    ensures Written(atoms, recs, n, chain0).0 == Written(atoms, recs, i, chain0).0
    decreases n - i
  {
    if n > i {
      WrittenStops(atoms, recs, i, n - 1, chain0);
    }
  }

  /** `writePDBLine` as the loop calls it: the line, the chain, and whether
      it failed. */
  method WriteLine(a: Atom, rec: string, chainprev: string) returns (line: string, chain: string, err: bool)
    ensures var r := WritePdbLine(a, rec, chainprev);
      chain == r.1 && err == !r.0.Ok? && (r.0.Ok? ==> line == r.0.value)
  {
    var r := WritePdbLine(a, rec, chainprev);
    chain := r.1;
    err := !r.0.Ok?;
    line := if r.0.Ok? then r.0.value else "";
  }

  /** The records of the first `n` atoms, with `TER` before every atom
      whose chain differs from the atom before it: the text written for
      fewer atoms is kept as it was, and the last record ends it. */
  function Entries(atoms: seq<Atom>, recs: seq<string>, n: nat): (r: string)
    requires n <= |atoms| <= |recs|
    ensures forall m :: 0 <= m <= n ==> HasPrefix(r, Entries(atoms, recs, m))
    ensures n > 0 ==> |recs[n - 1]| <= |r| && r[|r| - |recs[n - 1]|..] == recs[n - 1]
  {
    if n == 0 then ""
    else
      var init := Entries(atoms, recs, n - 1);
      var r := init + (if n > 1 && atoms[n - 1].chain != atoms[n - 2].chain then "TER\n" else "") + recs[n - 1];
      assert forall m :: 0 <= m < n ==> HasPrefix(r, Entries(atoms, recs, m)) by {
        forall m | 0 <= m < n
          ensures HasPrefix(r, Entries(atoms, recs, m))
        {
          var e := Entries(atoms, recs, m);
          assert HasPrefix(init, e);
          assert r[..|init|] == init;
          assert r[..|e|] == init[..|e|];
        }
      }
      r
  }

  /** The first atom, from `0`, whose name is longer than four bytes. */
  function FirstLong(atoms: seq<Atom>, n: nat): (j: nat)
    requires n <= |atoms|
    ensures j <= n && (forall i :: 0 <= i < j ==> Utf8Len(atoms[i].name) <= 4)
    ensures j < n ==> Utf8Len(atoms[j].name) > 4
  {
    if n == 0 then 0
    else
      var j := FirstLong(atoms, n - 1);
      if j < n - 1 then j else if Utf8Len(atoms[n - 1].name) > 4 then n - 1 else n
  }

  /** The loop of `PDBStringWrite` writes the records with `TER` where the
      chain changes, and stops at the first name of more than four bytes. */
  lemma {:induction false} WrittenEntries(atoms: seq<Atom>, recs: seq<string>, n: nat)
    requires 0 < |atoms| && n <= |atoms| <= |recs|
    ensures var w := Written(atoms, recs, n, atoms[0].chain);
      (FirstLong(atoms, n) == n ==> w == (Ok(Entries(atoms, recs, n)), if n == 0 then atoms[0].chain else atoms[n - 1].chain))
      && (FirstLong(atoms, n) < n ==> w.0 == Err(LineFailed + IntText(FirstLong(atoms, n))))
  {
    if n > 0 {
      WrittenEntries(atoms, recs, n - 1);
      var w := Written(atoms, recs, n - 1, atoms[0].chain);
      if FirstLong(atoms, n) == n {
        var prev := if n == 1 then atoms[0].chain else atoms[n - 2].chain;
        assert w == (Ok(Entries(atoms, recs, n - 1)), prev);
        var ter := if atoms[n - 1].chain != prev then "TER\n" else "";
        var rec := recs[n - 1];
        assert WritePdbLine(atoms[n - 1], rec, prev).0 == Ok(ter + rec);
        AppendAssoc(Entries(atoms, recs, n - 1), ter, rec);
      }
    }
  }

  /** `PDBStringWrite` fails when the coordinates, the atoms and the
      b-factors (zeros when there are none) differ in number, and panics on
      an empty reference. */
  lemma PdbStringRejects(coords: seq<GoStf.Vec3>, atoms: seq<Atom>, bfact: Option<seq<real>>)
    ensures var n := if bfact.None? then |atoms| else |bfact.value|;
      var r := PdbStringOf(coords, atoms, bfact);
      (|coords| != |atoms| || n != |atoms| ==> r == Err(Mismatch))
      && (|coords| == |atoms| == n ==> (r.Panic? <==> atoms == []))
  {
  }

  /** Otherwise it fails at the first name longer than four bytes, and
      without one it writes the records with `TER` at every change of
      chain, never before the first atom, and then `END`. */
  lemma PdbStringWritten(coords: seq<GoStf.Vec3>, atoms: seq<Atom>, bf: seq<real>)
    requires 0 < |atoms| == |coords| == |bf|
    ensures var r := PdbStringOf(coords, atoms, Some(bf));
      var j := FirstLong(atoms, |atoms|);
      (j == |atoms| ==> r == Ok(Entries(atoms, Records(atoms, coords, bf), |atoms|) + "END\n"))
      && (j < |atoms| ==> r == Err(LineFailed + IntText(j)))
  {
    var recs := Records(atoms, coords, bf);
    PdbStringText(coords, atoms, bf);
    PdbTextWritten(atoms, recs);
  }

  /** For matching atoms, coordinates and b-factors, the text is the loop's
      over their records. */
  lemma PdbStringText(coords: seq<GoStf.Vec3>, atoms: seq<Atom>, bf: seq<real>)
    requires 0 < |atoms| == |coords| == |bf|
    ensures PdbStringOf(coords, atoms, Some(bf)) == PdbText(atoms, Records(atoms, coords, bf))
  {
  }

  /** The loop's text for any records. */
  lemma PdbTextWritten(atoms: seq<Atom>, recs: seq<string>)
    requires 0 < |atoms| <= |recs|
    ensures var r := PdbText(atoms, recs);
      var j := FirstLong(atoms, |atoms|);
      (j == |atoms| ==> r == Ok(Entries(atoms, recs, |atoms|) + "END\n"))
      && (j < |atoms| ==> r == Err(LineFailed + IntText(j)))
  {
    WrittenEntries(atoms, recs, |atoms|);
  }

  /** A nil b-factor list writes every atom with a b-factor of zero. */
  lemma PdbStringNil(coords: seq<GoStf.Vec3>, atoms: seq<Atom>)
    ensures PdbStringOf(coords, atoms, None) == PdbStringOf(coords, atoms, Some(Zeros(|atoms|)))
  {
  }

  // ---------------------------------------------------------------------
  // xyzReadSnap
  // ---------------------------------------------------------------------

  /** An atom as `xyzReadSnap` builds it from the first field of its line. */
  datatype XyzAtom = XyzAtom(symbol: string, mass: real, molname: string, name: string)

  /** What the atom loop has filled in: the coordinate rows (one per atom,
      zero where no line was stored), the atoms built so far and the unread
      text. */
  datatype Filled = Filled(coords: seq<GoStf.Vec3>, atoms: seq<XyzAtom>, rest: string)

  /** A snapshot read: the coordinate rows, the atoms when the topology is
      read (nil otherwise), and the unread text. */
  datatype Snap = Snap(coords: seq<GoStf.Vec3>, atoms: Option<seq<XyzAtom>>, rest: string)

  /** The ASCII characters `strings.Title` treats as word separators
      (letters, digits and `_` are not); for the non-ASCII characters of a
      field, which holds no space, Go answers "not a separator" too. */
  predicate TitleSep(c: char) {
    c as int < 0x80 && !('a' <= c <= 'z' || 'A' <= c <= 'Z' || '0' <= c <= '9' || c == '_')
  }

  function Upper(c: char): char {
    if 'a' <= c <= 'z' then (c as int - 32) as char else c
  }

  /** `strings.Title` on a field: every lowercase ASCII letter that begins a
      word (at the start, or after a separator) is made uppercase. */
  function Title(s: string): (r: string)
    ensures |r| == |s| && forall i :: 0 <= i < |s| ==> r[i] == if i == 0 || TitleSep(s[i - 1]) then Upper(s[i]) else s[i]
  {
    TitleAfter(s, true)
  }

  function TitleAfter(s: string, start: bool): (r: string)
    ensures |r| == |s|
    ensures forall i :: 0 <= i < |s| ==> r[i] == if (if i == 0 then start else TitleSep(s[i - 1])) then Upper(s[i]) else s[i]
  {
    if s == [] then []
    else
      var r := TitleAfter(s[1..], TitleSep(s[0]));
      [if start then Upper(s[0]) else s[0]] + r
  }

  /** The atom of a line whose first field is `w`: its symbol, the mass
      `symbolMass` gives it (zero if none), residue `UNK`. */
  function AtomOf(w: string): XyzAtom {
    var s := Title(w);
    XyzAtom(s, if s in SymbolMass then SymbolMass[s] else 0.0, "UNK", s)
  }

  /** The two header lines: the atom count, then a line that is skipped.
      The count comes back with the text after the second line. */
  datatype Header = Header(natoms: nat, rest: string)

  function SnapHeader(s: string): (r: Outcome<Header>)
    ensures r.Ok? ==> |r.value.rest| < |s|
  {
    var l1 := ReadLine(s);
    if l1.eof then Err(EmptyFile)
    else
      var t := TrimSpace(l1.text);
      match Atoi(t)
      case None => Err(WrongHeader + AtoiError(t))
      case Some(n) =>
        if n < 0 then Panic(BadLength)
        else
          var l2 := ReadLine(l1.rest);
          if l2.eof then Err(NoTitle) else Ok(Header(n, l2.rest))
  }

  /** The four ways the header ends: a file without a first line, a count
      that is not an integer, a negative count (`make` panics), a missing
      second line; otherwise the count and the text after the second line. */
  lemma SnapHeaderOutcomes(s: string)
    ensures var l1 := ReadLine(s); var n := Atoi(TrimSpace(l1.text));
      SnapHeader(s).Ok? <==> !l1.eof && n.Some? && n.value >= 0 && !ReadLine(l1.rest).eof
    ensures var l1 := ReadLine(s); var n := Atoi(TrimSpace(l1.text));
      SnapHeader(s).Ok? ==> SnapHeader(s).value == Header(n.value, ReadLine(l1.rest).rest)
    ensures ReadLine(s).eof <==> SnapHeader(s) == Err(EmptyFile)
    ensures var l1 := ReadLine(s); var t := TrimSpace(l1.text);
      !l1.eof && Atoi(t).None? <==> SnapHeader(s) == Err(WrongHeader + AtoiError(t))
    ensures var l1 := ReadLine(s); var n := Atoi(TrimSpace(l1.text));
      SnapHeader(s).Panic? <==> !l1.eof && n.Some? && n.value < 0
    ensures SnapHeader(s).Panic? ==> SnapHeader(s).msg == BadLength
    ensures var l1 := ReadLine(s); var n := Atoi(TrimSpace(l1.text));
      !l1.eof && n.Some? && n.value >= 0 && ReadLine(l1.rest).eof <==> SnapHeader(s) == Err(NoTitle)
  {
  }

  /** One atom line read: the loop breaks at the end of the text (allowed
      only for the last atom, whose line need not end with a newline) or at
      a line of fewer than four fields. */
  datatype AtomLine = Broke(msg: string) | Fine(fields: seq<string>, rest: string)

  /** Reading atom line `i` of `natoms` from the unread text. */
  function ReadAtomLine(rest: string, i: nat, natoms: nat): (r: AtomLine)
    ensures r.Fine? ==> |r.fields| >= 4
    ensures var l := ReadLine(rest);
      r.Broke? <==> (l.eof && i + 1 != natoms) || |Fields(l.text)| < 4
    ensures var l := ReadLine(rest);
      r.Fine? ==> r.fields == Fields(l.text) && r.rest == l.rest
    ensures var l := ReadLine(rest);
      r.Broke? ==> r.msg == if l.eof && i + 1 != natoms then "EOF" else "Line number " + IntText(i) + " ill formed"
  {
    var l := ReadLine(rest);
    if l.eof && i + 1 != natoms then Broke("EOF")
    else
      var f := Fields(l.text);
      if |f| < 4 then Broke("Line number " + IntText(i) + " ill formed") else Fine(f, l.rest)
  }

  /** A line reader like `ReadAtomLine`, which hands over at least four
      fields whenever it reads a line. The atom loop below is stated for
      any such reader and used with `ReadAtomLine`. */
  ghost predicate FourFields(read: (string, nat, nat) -> AtomLine) {
    forall t, i, n :: read(t, i, n).Fine? ==> |read(t, i, n).fields| >= 4
  }

  lemma ReadAtomLineFields()
    ensures FourFields(ReadAtomLine)
  {
  }

  /** The fields of the atom lines `i..natoms` as the loop reads them, up
      to the line where it breaks. */
  function AtomFields(rest: string, i: nat, natoms: nat, read: (string, nat, nat) -> AtomLine): (L: seq<seq<string>>)
    requires i <= natoms && FourFields(read)
    ensures |L| <= natoms - i && forall j :: 0 <= j < |L| ==> |L[j]| >= 4
    decreases natoms - i
  {
    if i == natoms then []
    else match read(rest, i, natoms)
      case Broke(_) => []
      case Fine(f, r) => [f] + AtomFields(r, i + 1, natoms, read)
  }

  /** The fields of the atom lines of `xyzReadSnap`, up to the line where
      its loop breaks. */
  function LinesRead(rest: string, n: nat): (L: seq<seq<string>>)
    ensures |L| <= n && forall j :: 0 <= j < |L| ==> |L[j]| >= 4
  {
    ReadAtomLineFields();
    AtomFields(rest, 0, n, ReadAtomLine)
  }

  /** The three coordinates of an atom line parse. */
  predicate Parses(f: seq<string>, parse: string -> Option<real>)
    requires |f| >= 4
  {
    parse(f[1]).Some? && parse(f[2]).Some? && parse(f[3]).Some?
  }

  /** The coordinates of an atom line whose fields parse. */
  function RowOf(f: seq<string>, parse: string -> Option<real>): GoStf.Vec3
    requires |f| >= 4 && Parses(f, parse)
  {
    GoStf.Vec3(parse(f[1]).value, parse(f[2]).value, parse(f[3]).value)
  }

  /** What `strconv.ParseFloat` leaves in the slice: the value, or zero
      on a syntax error. */
  function ValueOr0(o: Option<real>): real {
    if o.Some? then o.value else 0.0
  }

  function ErrOf(w: string, parse: string -> Option<real>): Option<string> {
    if parse(w).None? then Some(ParseFloatError(w)) else None
  }

  /** The three errors one atom line leaves in `errs`. */
  function LineErrs(f: seq<string>, parse: string -> Option<real>): (e: seq<Option<string>>)
    requires |f| >= 4
    ensures |e| == 3 && (Parses(f, parse) <==> e == [None, None, None])
  {
    [ErrOf(f[1], parse), ErrOf(f[2], parse), ErrOf(f[3], parse)]
  }

  /** The first error of `errs`, as the loop after the atom loop finds it. */
  function FirstErr(errs: seq<Option<string>>): Option<string> {
    if errs == [] then None else if errs[0].Some? then errs[0] else FirstErr(errs[1..])
  }

  /** The first error a line leaves is that of its first coordinate that
      does not parse. */
  lemma LineErrsFirst(f: seq<string>, parse: string -> Option<real>)
    requires |f| >= 4
    ensures FirstErr(LineErrs(f, parse))
            == if parse(f[1]).None? then Some(ParseFloatError(f[1]))
               else if parse(f[2]).None? then Some(ParseFloatError(f[2]))
               else if parse(f[3]).None? then Some(ParseFloatError(f[3])) else None
  {
    var e := LineErrs(f, parse);
    assert e[1..] == [ErrOf(f[2], parse), ErrOf(f[3], parse)];
    assert e[1..][1..] == [ErrOf(f[3], parse)];
    assert e[1..][1..][1..] == [];
    assert FirstErr(e[1..][1..]) == ErrOf(f[3], parse);
    assert FirstErr(e[1..]) == if ErrOf(f[2], parse).Some? then ErrOf(f[2], parse) else ErrOf(f[3], parse);
  }

  /** `natoms` rows of zeros, as `make` leaves the buffer. */
  function ZeroRows(n: nat): (r: seq<GoStf.Vec3>)
    ensures |r| == n
  {
    seq(n, _ => GoStf.Vec3(0.0, 0.0, 0.0))
  }

  /** The atom loop of `xyzReadSnap` as written: each line overwrites the
      three errors of the line before, and a break puts its own in the
      first slot. */
  function AtomsAsWritten(rest: string, i: nat, natoms: nat, readTopol: bool, parse: string -> Option<real>,
                          read: (string, nat, nat) -> AtomLine,
                          coords: seq<GoStf.Vec3>, atoms: seq<XyzAtom>, errs: seq<Option<string>>)
    : (r: (seq<Option<string>>, Filled))
    requires i <= natoms == |coords| && |errs| == 3 && FourFields(read)
    ensures |r.0| == 3 && |r.1.coords| == |coords|
    decreases natoms - i
  {
    if i == natoms then (errs, Filled(coords, atoms, rest))
    else match read(rest, i, natoms)
      case Broke(e) => (errs[0 := Some(e)], Filled(coords, atoms, rest))
      case Fine(f, r) =>
        var c := coords[i := GoStf.Vec3(ValueOr0(parse(f[1])), ValueOr0(parse(f[2])), ValueOr0(parse(f[3])))];
        var a := if readTopol then atoms + [AtomOf(f[0])] else atoms;
        AtomsAsWritten(r, i + 1, natoms, readTopol, parse, read, c, a, LineErrs(f, parse))
  }

  /** The snapshot, or the first error, once the atom loop is done. */
  function Finish(errs: seq<Option<string>>, fl: Filled, readTopol: bool): Outcome<Snap> {
    match FirstErr(errs)
    case Some(e) => Err(e)
    case None => Ok(Snap(fl.coords, if readTopol then Some(fl.atoms) else None, fl.rest))
  }

  /** `xyzReadSnap(xyz, ReadTopol)` as written, reading lines with `read`. */
  function SnapAsWrittenWith(s: string, readTopol: bool, parse: string -> Option<real>,
                             read: (string, nat, nat) -> AtomLine): Outcome<Snap>
    requires FourFields(read)
  {
    match SnapHeader(s)
    case Err(e) => Err(e)
    case Panic(e) => Panic(e)
    case Ok(Header(n, rest)) =>
      var w := AtomsAsWritten(rest, 0, n, readTopol, parse, read, ZeroRows(n), [], [None, None, None]);
      Finish(w.0, w.1, readTopol)
  }

  /** `xyzReadSnap(xyz, ReadTopol)` as written. */
  function SnapAsWritten(s: string, readTopol: bool, parse: string -> Option<real>): (r: Outcome<Snap>)
    ensures !SnapHeader(s).Ok? ==> r == SnapOf(s, readTopol, parse)
    ensures r.Ok? ==> SnapHeader(s).Ok? && |r.value.coords| == SnapHeader(s).value.natoms
                      && (r.value.atoms.Some? <==> readTopol)
  {
    ReadAtomLineFields();
    SnapAsWrittenWith(s, readTopol, parse, ReadAtomLine)
  }

  /** The atom loop as intended: a coordinate that does not parse ends the
      snapshot with its error. */
  function AtomsRead(rest: string, i: nat, natoms: nat, readTopol: bool, parse: string -> Option<real>,
                     read: (string, nat, nat) -> AtomLine, coords: seq<GoStf.Vec3>, atoms: seq<XyzAtom>)
    : (r: Outcome<Filled>)
    requires i <= natoms == |coords| && FourFields(read)
    ensures !r.Panic?
    ensures r.Ok? ==> |r.value.coords| == |coords| && forall k :: 0 <= k < i ==> r.value.coords[k] == coords[k]
    decreases natoms - i
  {
    if i == natoms then Ok(Filled(coords, atoms, rest))
    else match read(rest, i, natoms)
      case Broke(e) => Err(e)
      case Fine(f, r) =>
        if parse(f[1]).None? then Err(ParseFloatError(f[1]))
        else if parse(f[2]).None? then Err(ParseFloatError(f[2]))
        else if parse(f[3]).None? then Err(ParseFloatError(f[3]))
        else AtomsRead(r, i + 1, natoms, readTopol, parse, read, coords[i := RowOf(f, parse)],
                       if readTopol then atoms + [AtomOf(f[0])] else atoms)
  }

  /** `xyzReadSnap(xyz, ReadTopol)` as intended, reading lines with `read`. */
  function SnapOfWith(s: string, readTopol: bool, parse: string -> Option<real>,
                      read: (string, nat, nat) -> AtomLine): Outcome<Snap>
    requires FourFields(read)
  {
    match SnapHeader(s)
    case Err(e) => Err(e)
    case Panic(e) => Panic(e)
    case Ok(Header(n, rest)) =>
      match AtomsRead(rest, 0, n, readTopol, parse, read, ZeroRows(n), [])
      case Ok(fl) => Ok(Snap(fl.coords, if readTopol then Some(fl.atoms) else None, fl.rest))
      case Err(e) => Err(e)
      case Panic(e) => Panic(e)
  }

  /** `xyzReadSnap(xyz, ReadTopol)` as intended. */
  function SnapOf(s: string, readTopol: bool, parse: string -> Option<real>): (r: Outcome<Snap>)
    ensures !r.Panic? || SnapHeader(s).Panic?
    ensures r.Ok? ==> SnapHeader(s).Ok? && |r.value.coords| == SnapHeader(s).value.natoms
                      && (r.value.atoms.Some? <==> readTopol)
  {
    ReadAtomLineFields();
    SnapOfWith(s, readTopol, parse, ReadAtomLine)
  }

  /** A break leaves an error in the first slot. */
  lemma FirstErrBroke(errs: seq<Option<string>>, e: string)
    requires |errs| == 3
    ensures FirstErr(errs[0 := Some(e)]) == Some(e)
  {
  }

  /** As written, the atom loop ends with an error when it breaks, and
      otherwise with the errors of the last line it read. */
  lemma {:induction false} AsWrittenErrs(rest: string, i: nat, natoms: nat, readTopol: bool, parse: string -> Option<real>,
                                         read: (string, nat, nat) -> AtomLine,
                                         coords: seq<GoStf.Vec3>, atoms: seq<XyzAtom>, errs: seq<Option<string>>)
    requires i <= natoms == |coords| && |errs| == 3 && FourFields(read)
    ensures var L := AtomFields(rest, i, natoms, read);
      var e := AtomsAsWritten(rest, i, natoms, readTopol, parse, read, coords, atoms, errs).0;
      (|L| < natoms - i ==> FirstErr(e).Some?)
      && (|L| == natoms - i ==> e == if L == [] then errs else LineErrs(L[|L| - 1], parse))
    decreases natoms - i
  {
    if i < natoms {
      match read(rest, i, natoms)
      case Broke(e) => FirstErrBroke(errs, e);
      case Fine(f, r) =>
        var c := coords[i := GoStf.Vec3(ValueOr0(parse(f[1])), ValueOr0(parse(f[2])), ValueOr0(parse(f[3])))];
        var a := if readTopol then atoms + [AtomOf(f[0])] else atoms;
        AsWrittenErrs(r, i + 1, natoms, readTopol, parse, read, c, a, LineErrs(f, parse));
        var L := AtomFields(r, i + 1, natoms, read);
        assert AtomFields(rest, i, natoms, read) == [f] + L;
        if L != [] {
          assert ([f] + L)[|L|] == L[|L| - 1];
        }
    }
  }

  /** All lines of `L` have coordinates that parse. */
  predicate AllParse(L: seq<seq<string>>, parse: string -> Option<real>)
    requires forall j :: 0 <= j < |L| ==> |L[j]| >= 4
  {
    forall j :: 0 <= j < |L| ==> Parses(L[j], parse)
  }

  /** The atoms built from the first fields of the lines. */
  function AtomsOf(L: seq<seq<string>>): (r: seq<XyzAtom>)
    requires forall j :: 0 <= j < |L| ==> |L[j]| >= 4
    ensures |r| == |L| && forall j :: 0 <= j < |L| ==> r[j] == AtomOf(L[j][0])
  {
    if L == [] then [] else [AtomOf(L[0][0])] + AtomsOf(L[1..])
  }

  /** Rows `i..` of `coords` are the coordinates of the lines of `L`. */
  predicate RowsStored(coords: seq<GoStf.Vec3>, i: nat, L: seq<seq<string>>, parse: string -> Option<real>)
    requires forall j :: 0 <= j < |L| ==> |L[j]| >= 4
    requires AllParse(L, parse) && i + |L| <= |coords|
  {
    forall j :: 0 <= j < |L| ==> coords[i + j] == RowOf(L[j], parse)
  }

  /** As intended, the atom loop succeeds exactly when it does not break
      and every line's coordinates parse; every row is then the values of
      its line's coordinate fields, and every atom comes from its line's
      first field. */
  lemma {:induction false} ReadErrs(rest: string, i: nat, natoms: nat, readTopol: bool, parse: string -> Option<real>,
                                    read: (string, nat, nat) -> AtomLine, coords: seq<GoStf.Vec3>, atoms: seq<XyzAtom>)
    requires i <= natoms == |coords| && FourFields(read)
    ensures var L := AtomFields(rest, i, natoms, read);
      var r := AtomsRead(rest, i, natoms, readTopol, parse, read, coords, atoms);
      (r.Ok? <==> |L| == natoms - i && AllParse(L, parse))
      && (r.Ok? ==> RowsStored(r.value.coords, i, L, parse)
                    && r.value.atoms == if readTopol then atoms + AtomsOf(L) else atoms)
    decreases natoms - i
  {
    if i < natoms {
      match read(rest, i, natoms)
      case Broke(e) =>
      case Fine(f, r) =>
        var L := AtomFields(r, i + 1, natoms, read);
        assert AtomFields(rest, i, natoms, read) == [f] + L;
        if Parses(f, parse) {
          var c := coords[i := RowOf(f, parse)];
          var a := if readTopol then atoms + [AtomOf(f[0])] else atoms;
          ReadErrs(r, i + 1, natoms, readTopol, parse, read, c, a);
          ReadStep(f, L, i, natoms, readTopol, parse, atoms, AtomsRead(r, i + 1, natoms, readTopol, parse, read, c, a), c);
        } else {
          assert !Parses(([f] + L)[0], parse);
        }
    }
  }

  /** The step of `ReadErrs`: line `i` in front of the others. */
  lemma ReadStep(f: seq<string>, L: seq<seq<string>>, i: nat, natoms: nat, readTopol: bool, parse: string -> Option<real>,
                 atoms: seq<XyzAtom>, r: Outcome<Filled>, c: seq<GoStf.Vec3>)
    requires |f| >= 4 && Parses(f, parse) && i < natoms == |c| && |L| <= natoms - (i + 1)
    requires forall j :: 0 <= j < |L| ==> |L[j]| >= 4
    requires c[i] == RowOf(f, parse)
    requires r.Ok? ==> |r.value.coords| == |c| && forall k :: 0 <= k < i + 1 ==> r.value.coords[k] == c[k]
    requires r.Ok? <==> |L| == natoms - (i + 1) && AllParse(L, parse)
    requires r.Ok? ==> RowsStored(r.value.coords, i + 1, L, parse)
    requires r.Ok? ==> r.value.atoms == if readTopol then atoms + [AtomOf(f[0])] + AtomsOf(L) else atoms
    ensures var M := [f] + L;
      (r.Ok? <==> |M| == natoms - i && AllParse(M, parse))
      && (r.Ok? ==> RowsStored(r.value.coords, i, M, parse)
                    && r.value.atoms == if readTopol then atoms + AtomsOf(M) else atoms)
  {
    var M := [f] + L;
    assert M[0] == f;
    assert forall j :: 0 < j < |M| ==> M[j] == L[j - 1];
    assert AllParse(L, parse) ==> AllParse(M, parse);
    assert M[1..] == L;
    if r.Ok? {
      var v := r.value.coords;
      forall j | 0 <= j < |M|
        ensures v[i + j] == RowOf(M[j], parse)
      {
        if j > 0 {
          assert v[i + 1 + (j - 1)] == RowOf(L[j - 1], parse);
        }
      }
    }
  }

  /** The two atom loops from the start: as written, the snapshot is
      finished without error exactly when no line breaks the loop and the
      LAST line's coordinates parse; as intended, exactly when every line's
      coordinates parse. */
  lemma LoopOutcomes(rest: string, n: nat, readTopol: bool, parse: string -> Option<real>,
                     read: (string, nat, nat) -> AtomLine)
    requires FourFields(read)
    ensures var L := AtomFields(rest, 0, n, read);
      var w := AtomsAsWritten(rest, 0, n, readTopol, parse, read, ZeroRows(n), [], [None, None, None]);
      (Finish(w.0, w.1, readTopol).Ok? <==> |L| == n && (n == 0 || Parses(L[n - 1], parse)))
      && (AtomsRead(rest, 0, n, readTopol, parse, read, ZeroRows(n), []).Ok? <==> |L| == n && AllParse(L, parse))
  {
    AsWrittenErrs(rest, 0, n, readTopol, parse, read, ZeroRows(n), [], [None, None, None]);
    ReadErrs(rest, 0, n, readTopol, parse, read, ZeroRows(n), []);
    var L := AtomFields(rest, 0, n, read);
    if |L| == n && n > 0 {
      LineErrsFirst(L[n - 1], parse);
    }
  }

  /** `xyzReadSnap` keeps only the last atom line's parse errors: as
      written, a snapshot whose header reads is read successfully exactly
      when no line breaks the loop and the LAST line's coordinates parse;
      as intended, exactly when every line's coordinates parse. */
  lemma SnapOutcomes(s: string, readTopol: bool, parse: string -> Option<real>)
    requires SnapHeader(s).Ok?
    ensures var Header(n, rest) := SnapHeader(s).value;
      var L := LinesRead(rest, n);
      (SnapAsWritten(s, readTopol, parse).Ok? <==> |L| == n && (n == 0 || Parses(L[n - 1], parse)))
      && (SnapOf(s, readTopol, parse).Ok? <==> |L| == n && AllParse(L, parse))
  {
    ReadAtomLineFields();
    var Header(n, rest) := SnapHeader(s).value;
    LoopOutcomes(rest, n, readTopol, parse, ReadAtomLine);
  }

  /** Both fail alike when the header does not read. */
  lemma SnapHeaderFails(s: string, readTopol: bool, parse: string -> Option<real>)
    requires !SnapHeader(s).Ok?
    ensures SnapAsWritten(s, readTopol, parse) == SnapOf(s, readTopol, parse)
    ensures SnapOf(s, readTopol, parse) == if SnapHeader(s).Err? then Err(SnapHeader(s).msg) else Panic(SnapHeader(s).msg)
  {
  }

  /** A snapshot read as intended holds, for every atom line, the values
      of its three coordinate fields and, with the topology, the atom of
      its first field. */
  lemma SnapValuesWith(s: string, readTopol: bool, parse: string -> Option<real>, read: (string, nat, nat) -> AtomLine)
    requires FourFields(read) && SnapOfWith(s, readTopol, parse, read).Ok?
    ensures SnapHeader(s).Ok?
    ensures var n := SnapHeader(s).value.natoms;
      var L := AtomFields(SnapHeader(s).value.rest, 0, n, read);
      var sn := SnapOfWith(s, readTopol, parse, read).value;
      |L| == n && |sn.coords| == n && AllParse(L, parse) && RowsStored(sn.coords, 0, L, parse)
      && sn.atoms == if readTopol then Some(AtomsOf(L)) else None
  {
    SnapOfWithOk(s, readTopol, parse, read);
    var Header(n, rest) := SnapHeader(s).value;
    LoopValues(rest, n, readTopol, parse, read);
  }

  /** The atom loop from the first atom, when it ends. */
  lemma LoopValues(rest: string, n: nat, readTopol: bool, parse: string -> Option<real>, read: (string, nat, nat) -> AtomLine)
    requires FourFields(read) && AtomsRead(rest, 0, n, readTopol, parse, read, ZeroRows(n), []).Ok?
    ensures var L := AtomFields(rest, 0, n, read);
      var f := AtomsRead(rest, 0, n, readTopol, parse, read, ZeroRows(n), []).value;
      |L| == n && |f.coords| == n && AllParse(L, parse) && RowsStored(f.coords, 0, L, parse)
      && (readTopol ==> f.atoms == AtomsOf(L))
  {
    ReadErrs(rest, 0, n, readTopol, parse, read, ZeroRows(n), []);
    var L := AtomFields(rest, 0, n, read);
    assert [] + AtomsOf(L) == AtomsOf(L);
  }

  /** A snapshot read is the header and then an atom loop that ends. */
  lemma SnapOfWithOk(s: string, readTopol: bool, parse: string -> Option<real>, read: (string, nat, nat) -> AtomLine)
    requires FourFields(read) && SnapOfWith(s, readTopol, parse, read).Ok?
    ensures SnapHeader(s).Ok?
    ensures var Header(n, rest) := SnapHeader(s).value;
      var r := AtomsRead(rest, 0, n, readTopol, parse, read, ZeroRows(n), []);
      r.Ok? && SnapOfWith(s, readTopol, parse, read).value
               == Snap(r.value.coords, if readTopol then Some(r.value.atoms) else None, r.value.rest)
  {
  }

  /** The same for `xyzReadSnap` itself. */
  lemma SnapValues(s: string, readTopol: bool, parse: string -> Option<real>)
    requires SnapOf(s, readTopol, parse).Ok?
    ensures SnapHeader(s).Ok?
    ensures var n := SnapHeader(s).value.natoms;
      var L := LinesRead(SnapHeader(s).value.rest, n);
      var sn := SnapOf(s, readTopol, parse).value;
      |L| == n && |sn.coords| == n && AllParse(L, parse) && RowsStored(sn.coords, 0, L, parse)
      && sn.atoms == if readTopol then Some(AtomsOf(L)) else None
  {
    ReadAtomLineFields();
    SnapValuesWith(s, readTopol, parse, ReadAtomLine);
  }

  /** `xyzReadSnap` as intended: the header, then the atom loop. */
  method XyzReadSnap(s: string, readTopol: bool, parse: string -> Option<real>) returns (r: Outcome<Snap>)
    ensures r == SnapOf(s, readTopol, parse)
  {
    var h := SnapHeader(s);
    if !h.Ok? {
      return if h.Err? then Err(h.msg) else Panic(h.msg);
    }
    var Header(n, rest0) := h.value;
    ReadAtomLineFields();
    var fl := AtomLoop(rest0, n, readTopol, parse, ReadAtomLine);
    r := match fl
      case Ok(f) => Ok(Snap(f.coords, if readTopol then Some(f.atoms) else None, f.rest))
      case Err(e) => Err(e)
      case Panic(e) => Panic(e);
  }

  /** The atom loop of `xyzReadSnap` over the coordinate buffer, stopping
      at the first line that breaks or whose coordinates do not parse. */
  method AtomLoop(rest0: string, n: nat, readTopol: bool, parse: string -> Option<real>,
                  read: (string, nat, nat) -> AtomLine) returns (r: Outcome<Filled>)
    requires FourFields(read)
    ensures r == AtomsRead(rest0, 0, n, readTopol, parse, read, ZeroRows(n), [])
  {
    var coords := ZeroRows(n);
    var atoms: seq<XyzAtom> := [];
    var rest := rest0;
    var i := 0;
    while i < n
      invariant i <= n == |coords|
      invariant AtomsRead(rest, i, n, readTopol, parse, read, coords, atoms)
                == AtomsRead(rest0, 0, n, readTopol, parse, read, ZeroRows(n), [])
      decreases n - i
    {
      var l := read(rest, i, n);
      if l.Broke? {
        return Err(l.msg);
      }
      var f := l.fields;
      LineErrsFirst(f, parse);
      var e := FirstErr(LineErrs(f, parse));
      if e.Some? {
        return Err(e.value);
      }
      if readTopol {
        atoms := atoms + [AtomOf(f[0])];
      }
      coords := coords[i := RowOf(f, parse)];
      rest := l.rest;
      i := i + 1;
    }
    return Ok(Filled(coords, atoms, rest));
  }
}
