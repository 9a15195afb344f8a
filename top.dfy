/** The line-editing layer of the topology package (`top/old.go`): a
    `TermSelect` maps each topology section header to the function that
    rewrites the lines of that section (or to nil, no function), a
    `TopInMem` is a topology held as a list of lines read and rewritten
    through a cursor, and `FuncApplier` walks the lines and rewrites each one
    with the function of the section it is in. The Go functions are
    closures; here they are the values of `LineFn`, and a variable a closure
    captures and changes between calls is a field of a `Cell` object, so that
    headers sharing one closure share its state, as in Go. */
module TopOld {
  import opened Wrappers
  import opened Text
  import opened Numbers

  // ---------------------------------------------------------------------
  // Atom renumbering: SwitchAtomNumbersFunctions' `change`
  // ---------------------------------------------------------------------

  /** What `change` consults: the indices to replace and their
      replacements, or, when `tosub` is empty, one amount added to every
      index. */
  datatype Change = Change(tosub: seq<int>, replacement: seq<int>)

  /** The shapes `SwitchAtomNumbersFunctions` accepts: one replacement per
      index, or at least the amount to add. */
  predicate ChangeOk(c: Change) {
    if |c.tosub| == 0 then |c.replacement| >= 1 else |c.tosub| == |c.replacement|
  }

  /** `slices.Index`: the first position of `x` in `s`, or -1. */
  function IndexOf(s: seq<int>, x: int): (r: int)
    ensures -1 <= r < |s|
    ensures r == -1 <==> x !in s
    ensures r >= 0 ==> s[r] == x && forall j :: 0 <= j < r ==> s[j] != x
  {
    if s == [] then -1
    else if s[0] == x then 0
    else
      var r := IndexOf(s[1..], x);
      assert forall j :: 1 <= j < |s| ==> s[j] == s[1..][j - 1];
      if r == -1 then -1 else r + 1
  }

  /** `change(i)`. */
  function ChangeAt(c: Change, i: int): int
    requires ChangeOk(c)
  {
    if |c.tosub| == 0 then i + c.replacement[0]
    else
      var index := IndexOf(c.tosub, i);
      if index == -1 then i else c.replacement[index]
  }

  /** An index listed in `tosub` (at its first listing `k`) becomes
      `replacement[k]`; an index not listed stays; with no `tosub`, every
      index moves by `replacement[0]`. */
  lemma ChangeMaps(c: Change, i: int)
    requires ChangeOk(c)
    ensures |c.tosub| == 0 ==> ChangeAt(c, i) == i + c.replacement[0]
    ensures |c.tosub| > 0 && i !in c.tosub ==> ChangeAt(c, i) == i
    ensures forall k :: (0 <= k < |c.tosub| && c.tosub[k] == i && (forall j :: 0 <= j < k ==> c.tosub[j] != i)
                         ==> ChangeAt(c, i) == c.replacement[k])
  {
    if |c.tosub| > 0 && i in c.tosub {
      var index := IndexOf(c.tosub, i);
      forall k | 0 <= k < |c.tosub| && c.tosub[k] == i && (forall j :: 0 <= j < k ==> c.tosub[j] != i)
        ensures ChangeAt(c, i) == c.replacement[k]
      {
      }
    }
  }

  /** The parameters `SwitchAtomNumbersFunctions(tosub, replacement)` works
      with after its first lines: a single negative `tosub[0]` means
      "shift": the closures then see an empty `tosub`, and `after` is its
      absolute value; otherwise `after` is 0. */
  function SwitchPlan(tosub: seq<int>, replacement: seq<int>): (p: (Change, int))
    ensures p.0.replacement == replacement
    ensures (|tosub| == 1 && tosub[0] < 0) ==> p == (Change([], replacement), -tosub[0])
    ensures !(|tosub| == 1 && tosub[0] < 0) ==> p == (Change(tosub, replacement), 0)
  {
    if |tosub| == 1 && tosub[0] < 0 then (Change([], replacement), -1 * tosub[0])
    else (Change(tosub, replacement), 0)
  }

  /** `ShiftAtomNumbersFunctions(after, toadd)` as written: the switch with
      `tosub = [-after]`. */
  function ShiftPlanAsWritten(after: int, toadd: int): (r: (Change, int))
    ensures after > 0 ==> r == (Change([], [toadd]), after)
    ensures after <= 0 ==> r == (Change([-after], [toadd]), 0)
  {
    SwitchPlan([-1 * after], [toadd])
  }

  /** With `after = 0`, `-after` is not negative, so the shift turns into
      "replace atom 0 by `toadd`": atom 5 keeps its number instead of moving
      by `toadd`. */
  lemma ShiftZeroAsWritten(toadd: int)
    requires toadd != 0
    ensures var p := ShiftPlanAsWritten(0, toadd);
      ChangeOk(p.0) && p.1 == 0 && ChangeAt(p.0, 5) == 5 != 5 + toadd
  {
    var p := ShiftPlanAsWritten(0, toadd);
    assert p.0.tosub == [0];
    assert IndexOf([0], 5) == -1;
  }

  /** `ShiftAtomNumbersFunctions(after, toadd)` as documented: add `toadd`
      to every atom index from `after` on. For `after > 0` it is the plan as
      written; `after = 0` now shifts every index too. */
  function ShiftPlan(after: int, toadd: int): (p: (Change, int))
    ensures ChangeOk(p.0) && p.1 == after
    ensures forall i {:trigger ChangeAt(p.0, i)} :: ChangeAt(p.0, i) == i + toadd
    ensures after > 0 ==> p == ShiftPlanAsWritten(after, toadd)
  {
    (Change([], [toadd]), after)
  }

  // ---------------------------------------------------------------------
  // The line functions
  // ---------------------------------------------------------------------

  /** The variables a closure captures and changes between calls:
      `DelDuplicatedFunctions`' `prevline` and `DelRepeatedFunctions'
      `lines`. */
  class Cell {
    var last: string
    var seen: seq<string>

    constructor (last: string)
      ensures this.last == last && seen == []
    {
      this.last, seen := last, [];
    }

    function Val(): CellVal
      reads this
    {
      CellVal(last, seen)
    }
  }

  /** The contents of a `Cell`. */
  datatype CellVal = CellVal(last: string, seen: seq<string>)

  /** A `func(string) (string, error)` a `TermSelect` holds:
      - `Keep`: the do-nothing function `SetAll` and `GetOrDefault` use;
      - `Given(f)`: a function from elsewhere that keeps no state;
      - `DropAtoms(todel)`: `DeleteAtomsFunction`'s `f`;
      - `Renumber(change, after, atoms)`: `SwitchAtomNumbersFunctions`'
        `adder(atoms)`, for the first `atoms` fields (all, when `atoms <= 0`);
      - `RenumberSites(change, after)`: its `vsitesn`;
      - `DropDuplicate(cell)`: `DelDuplicatedFunctions`' `f`, with `prevline`
        in the cell;
      - `DropRepeated(cell)`: `DelRepeatedFunctions`' `f`, with `lines` in the
        cell. */
  datatype LineFn =
    | Keep
    | Given(f: string -> Outcome<string>)
    | DropAtoms(todel: seq<int>)
    | Renumber(change: Change, after: int, atoms: int)
    | RenumberSites(change: Change, after: int)
    | DropDuplicate(cell: Cell)
    | DropRepeated(cell: Cell)
  {
    predicate HasCell() {
      DropDuplicate? || DropRepeated?
    }
  }

  /** The renumbering functions carry a plan `change` can use. */
  predicate FnOk(fn: LineFn) {
    (fn.Renumber? || fn.RenumberSites?) ==> ChangeOk(fn.change)
  }

  /** The objects a call of `fn` may change. */
  function CellsOf(fn: LineFn): set<Cell> {
    if fn.HasCell() then {fn.cell} else {}
  }

  /** `fmt.Sprintf("%3d", n)`. */
  function Pad3(n: int): string {
    PadLeft(IntText(n), 3)
  }

  /** The fields of a line with the atom numbers `moved` picks replaced by
      their new numbers: `ats` are the numbers the first `|ats|` fields
      hold. */
  function Renumbered(st: seq<string>, ats: seq<int>, ch: Change, moved: (int, int) -> bool): (r: seq<string>)
    requires |ats| <= |st| && ChangeOk(ch)
    ensures |r| == |st|
    ensures forall i :: 0 <= i < |st| ==>
      r[i] == if i < |ats| && moved(i, ats[i]) then Pad3(ChangeAt(ch, ats[i])) else st[i]
  {
    seq(|st|, i requires 0 <= i < |st| => if i < |ats| && moved(i, ats[i]) then Pad3(ChangeAt(ch, ats[i])) else st[i])
  }

  /** How many leading fields `adder(atoms)` reads as atoms: `atoms`, or all
      of them when `atoms` is not positive or exceeds the fields. */
  function FieldCount(atoms: int, n: nat): (k: nat)
    ensures k <= n && (0 < atoms <= n ==> k == atoms)
  {
    if atoms <= 0 || atoms > n then n else atoms
  }

  /** An `adder` moves atom numbers from `after` on. */
  function FromAfter(after: int): (int, int) -> bool {
    (i: int, v: int) => v >= after
  }

  /** `vsitesn` moves the site (field 0) and the constructing atoms (fields 2
      on) above `after`; field 1 is the function type. */
  function SitesAbove(after: int): (int, int) -> bool {
    (i: int, v: int) => (i == 0 || i >= 2) && v > after
  }

  /** The error of line `s` whose field `field` is not an integer: the
      line, then the error of `strconv.Atoi` on that field. */
  function NumbersError(s: string, field: string): string {
    "Can't parse numbers in line " + s + " " + AtoiError(field)
  }

  /** `adder(atoms)` on line `s`, with the count worked out for this line:
      the first `FieldCount(atoms, ...)` fields must be integers, those from
      `after` on are renumbered, and the fields are joined by one blank. */
  function RenumberLine(ch: Change, after: int, atoms: int, s: string): (r: Outcome<string>)
    requires ChangeOk(ch)
    ensures !r.Panic?
    ensures var st := Fields(s);
      r.Ok? <==> ParseAll(Atoi, st[..FieldCount(atoms, |st|)]).Some?
    ensures var st := Fields(s); var ws := st[..FieldCount(atoms, |st|)];
      r.Err? ==> ParseAll(Atoi, ws).None? && r.msg == NumbersError(s, ws[FirstUnparsed(Atoi, ws)])
  {
    var st := Fields(s);
    var ws := st[..FieldCount(atoms, |st|)];
    match ParseAll(Atoi, ws)
    case None => Err(NumbersError(s, ws[FirstUnparsed(Atoi, ws)]))
    case Some(ats) => Ok(Join(Renumbered(st, ats, ch, FromAfter(after)), " "))
  }

  /** `vsitesn` on line `s`: every field must be an integer, and a line of
      fewer than two fields panics (`ats[0]`, `ats[2:]`). */
  function SitesLine(ch: Change, after: int, s: string): (r: Outcome<string>)
    requires ChangeOk(ch)
    ensures r.Err? <==> ParseAll(Atoi, Fields(s)).None?
    ensures r.Panic? <==> ParseAll(Atoi, Fields(s)).Some? && |Fields(s)| < 2
    ensures r.Err? ==> r.msg == NumbersError(s, Fields(s)[FirstUnparsed(Atoi, Fields(s))])
  {
    var st := Fields(s);
    match ParseAll(Atoi, st)
    case None => Err(NumbersError(s, st[FirstUnparsed(Atoi, st)]))
    case Some(ats) =>
      if |ats| == 0 then Panic("index out of range [0] with length 0")
      else if |ats| < 2 then Panic("slice bounds out of range [2:1]")
      else Ok(Join(Renumbered(st, ats, ch, SitesAbove(after)), " "))
  }

  /** `DeleteAtomsFunction`'s `f`: a line whose first field is an atom
      listed in `todel` becomes empty, any other stays. */
  function DropAtomLine(todel: seq<int>, s: string): (r: Outcome<string>)
    ensures r.Panic? <==> Fields(s) == []
    ensures r.Ok? <==> Fields(s) != [] && Atoi(Fields(s)[0]).Some?
    ensures r.Ok? ==> r.value == if Atoi(Fields(s)[0]).value in todel then "" else s
    ensures r.Err? ==> r.msg == NumbersError(s, Fields(s)[0])
  {
    var fs := Fields(s);
    if fs == [] then Panic("index out of range [0] with length 0")
    else match Atoi(fs[0])
      case None => Err(NumbersError(s, fs[0]))
      case Some(at) => Ok(if at in todel then "" else s)
  }

  /** One call of `fn` on line `s` when its cell holds `v`: the new cell
      contents and what the call returns. */
  function Step(fn: LineFn, v: CellVal, s: string): (CellVal, Outcome<string>)
    requires FnOk(fn)
  {
    match fn
    case Keep => (v, Ok(s))
    case Given(f) => (v, f(s))
    case DropAtoms(todel) => (v, DropAtomLine(todel, s))
    case Renumber(ch, after, atoms) => (v, RenumberLine(ch, after, atoms, s))
    case RenumberSites(ch, after) => (v, SitesLine(ch, after, s))
    case DropDuplicate(_) => if s == v.last then (v, Ok("")) else (v.(last := s), Ok(s))
    case DropRepeated(_) => if s in v.seen then (v, Ok("")) else (v.(seen := v.seen + [s]), Ok(s))
  }

  /** `DelDuplicatedFunctions`' function empties a line equal to the line
      it last let through and lets any other through, remembering it. */
  lemma DropDuplicateStep(c: Cell, v: CellVal, s: string)
    ensures var (w, r) := Step(DropDuplicate(c), v, s);
      r.Ok? && (r.value == "" || r.value == s) && w.last == s && w.seen == v.seen
      && (r.value == s <==> s != v.last || s == "")
  {
  }

  /** `DelRepeatedFunctions`' function lets a line through exactly when it
      has not let the same line through before, and remembers it. */
  lemma DropRepeatedStep(c: Cell, v: CellVal, s: string)
    ensures var (w, r) := Step(DropRepeated(c), v, s);
      r.Ok? && w.last == v.last && s in w.seen
      && (s !in v.seen ==> r.value == s && w.seen == v.seen + [s])
      && (s in v.seen ==> r.value == "" && w.seen == v.seen)
  {
  }

  /** Calling the Go closure `fn` on line `s`. */
  method Apply(fn: LineFn, s: string) returns (r: Outcome<string>)
    requires FnOk(fn)
    modifies CellsOf(fn)
    ensures fn.HasCell() ==> (fn.cell.Val(), r) == Step(fn, old(fn.cell.Val()), s)
    ensures !fn.HasCell() ==> r == Step(fn, CellVal("", []), s).1
  {
    match fn
    case Keep => r := Ok(s);
    case Given(f) => r := f(s);
    case DropAtoms(todel) => r := DropAtomsCall(todel, s);
    case Renumber(ch, after, atoms) => r := RenumberCall(ch, after, atoms, s);
    case RenumberSites(ch, after) => r := SitesCall(ch, after, s);
    case DropDuplicate(c) =>
      if s == c.last {
        r := Ok("");
      } else {
        c.last := s;
        r := Ok(s);
      }
    case DropRepeated(c) =>
      var known := s in c.seen;
      if known {
        r := Ok("");
      } else {
        c.seen := c.seen + [s];
        r := Ok(s);
      }
  }

  /** `DeleteAtomsFunction`'s `f`. */
  method DropAtomsCall(todel: seq<int>, s: string) returns (r: Outcome<string>)
    ensures r == DropAtomLine(todel, s)
  {
    var fs := Fields(s);
    if fs == [] {
      return Panic("index out of range [0] with length 0");
    }
    var at := Atoi(fs[0]);
    if at.None? {
      return Err(NumbersError(s, fs[0]));
    }
    var listed := at.value in todel;
    if listed {
      return Ok("");
    }
    return Ok(s);
  }

  /** `adder(atoms)`. */
  method RenumberCall(ch: Change, after: int, atoms: int, s: string) returns (r: Outcome<string>)
    requires ChangeOk(ch)
    ensures r == RenumberLine(ch, after, atoms, s)
  {
    var st := Fields(s);
    var n := FieldCount(atoms, |st|);
    var parsed := ParseAll(Atoi, st[..n]);
    if parsed.None? {
      return Err(NumbersError(s, st[..n][FirstUnparsed(Atoi, st[..n])]));
    }
    var out := RenumberFields(st, parsed.value, ch, after);
    return Ok(Join(out, " "));
  }

  /** `adder`'s loop over the parsed atoms. */
  method RenumberFields(st: seq<string>, ats: seq<int>, ch: Change, after: int) returns (out: seq<string>)
    requires |ats| <= |st| && ChangeOk(ch)
    ensures out == Renumbered(st, ats, ch, FromAfter(after))
  {
    out := RenumberFrom(st, ats, ch, 0, after);
    ghost var want := Renumbered(st, ats, ch, FromAfter(after));
    forall j | 0 <= j < |st|
      ensures out[j] == want[j]
    {
      assert FromAfter(after)(j, if j < |ats| then ats[j] else 0) == (j < |ats| && ats[j] >= after) || j >= |ats|;
    }
  }

  /** The loop both renumbering functions run: each field from `from` on
      whose number is at least `low` gets its new number. */
  method RenumberFrom(st: seq<string>, ats: seq<int>, ch: Change, from: nat, low: int) returns (out: seq<string>)
    requires |ats| <= |st| && ChangeOk(ch)
    ensures |out| == |st|
    ensures forall j :: 0 <= j < |st| ==>
      out[j] == if from <= j < |ats| && ats[j] >= low then Pad3(ChangeAt(ch, ats[j])) else st[j]
  {
    out := st;
    var i := from;
    while i < |ats|
      invariant |out| == |st|
      invariant forall j :: 0 <= j < |st| ==>
        out[j] == if from <= j < i && j < |ats| && ats[j] >= low then Pad3(ChangeAt(ch, ats[j])) else st[j]
    {
      if ats[i] >= low {
        out := out[i := Pad3(ChangeAt(ch, ats[i]))];
      }
      i := i + 1;
    }
  }

  /** `vsitesn`. */
  method SitesCall(ch: Change, after: int, s: string) returns (r: Outcome<string>)
    requires ChangeOk(ch)
    ensures r == SitesLine(ch, after, s)
  {
    var st := Fields(s);
    var parsed := ParseAll(Atoi, st);
    if parsed.None? {
      return Err(NumbersError(s, st[FirstUnparsed(Atoi, st)]));
    }
    var ats := parsed.value;
    if |ats| == 0 {
      return Panic("index out of range [0] with length 0");
    }
    if |ats| < 2 {
      return Panic("slice bounds out of range [2:1]");
    }
    var out := SitesFields(st, ats, ch, after);
    return Ok(Join(out, " "));
  }

  /** `vsitesn`'s update of field 0 and its loop over `ats[2:]`. */
  method SitesFields(st: seq<string>, ats: seq<int>, ch: Change, after: int) returns (out: seq<string>)
    requires |ats| == |st| >= 2 && ChangeOk(ch)
    ensures out == Renumbered(st, ats, ch, SitesAbove(after))
  {
    var first := st;
    if ats[0] > after {
      first := first[0 := Pad3(ChangeAt(ch, ats[0]))];
    }
    out := RenumberFrom(first, ats, ch, 2, after + 1);
    ghost var want := Renumbered(st, ats, ch, SitesAbove(after));
    forall j | 0 <= j < |st|
      ensures out[j] == want[j]
    {
      assert SitesAbove(after)(j, ats[j]) == (j != 1 && ats[j] > after);
    }
  }

  /** The fields a renumbered line reads back as: the new number, in
      plain decimal, at each position `moved` picks, the old field
      elsewhere. */
  function Renewed(st: seq<string>, ats: seq<int>, ch: Change, moved: (int, int) -> bool): (r: seq<string>)
    requires |ats| <= |st| && ChangeOk(ch)
    ensures |r| == |st|
  {
    seq(|st|, i requires 0 <= i < |st| => if i < |ats| && moved(i, ats[i]) then IntText(ChangeAt(ch, ats[i])) else st[i])
  }

  /** Splitting a renumbered line on blanks gives its new fields: the
      padding `%3d` puts in front of a number merges into the blank before
      it. */
  lemma RenumberedFields(st: seq<string>, ats: seq<int>, ch: Change, moved: (int, int) -> bool)
    requires |ats| <= |st| && ChangeOk(ch)
    requires forall i :: 0 <= i < |st| ==> st[i] != [] && NoSep(st[i], GoSpace)
    ensures Fields(Join(Renumbered(st, ats, ch, moved), " ")) == Renewed(st, ats, ch, moved)
  {
    var ws := Renewed(st, ats, ch, moved);
    var pads := RenumberPads(st, ats, ch, moved);
    forall i | 0 <= i < |st|
      ensures ws[i] != [] && NoSep(ws[i], GoSpace) && AllSep(pads[i], GoSpace)
      ensures Renumbered(st, ats, ch, moved)[i] == pads[i] + ws[i]
    {
      RenumberedPiece(st, ats, ch, moved, i);
    }
    assert Padded(pads, ws) == Renumbered(st, ats, ch, moved);
    FieldsOfPaddedJoin(pads, ws, ' ', "", GoSpace);
    assert Join(Padded(pads, ws), [' ']) + "" == Join(Padded(pads, ws), " ");
  }

  /** The blanks `%3d` puts in front of each new number. */
  function RenumberPads(st: seq<string>, ats: seq<int>, ch: Change, moved: (int, int) -> bool): (r: seq<string>)
    requires |ats| <= |st| && ChangeOk(ch)
    ensures |r| == |st|
  {
    seq(|st|, i requires 0 <= i < |st| =>
      if i < |ats| && moved(i, ats[i]) then Repeat(' ', |Pad3(ChangeAt(ch, ats[i]))| - |IntText(ChangeAt(ch, ats[i]))|) else "")
  }

  /** Field `i` of a renumbered line is its blanks and its new word. */
  lemma RenumberedPiece(st: seq<string>, ats: seq<int>, ch: Change, moved: (int, int) -> bool, i: nat)
    requires |ats| <= |st| && ChangeOk(ch) && i < |st| && st[i] != [] && NoSep(st[i], GoSpace)
    ensures var ws := Renewed(st, ats, ch, moved);
      var pads := RenumberPads(st, ats, ch, moved);
      ws[i] != [] && NoSep(ws[i], GoSpace) && AllSep(pads[i], GoSpace)
      && Renumbered(st, ats, ch, moved)[i] == pads[i] + ws[i]
  {
    if i < |ats| && moved(i, ats[i]) {
      MovedPiece(st, ats, ch, moved, i);
    } else {
      assert RenumberPads(st, ats, ch, moved)[i] + Renewed(st, ats, ch, moved)[i] == st[i];
    }
  }

  /** `RenumberedPiece` for a field that gets a new number. */
  lemma MovedPiece(st: seq<string>, ats: seq<int>, ch: Change, moved: (int, int) -> bool, i: nat)
    requires |ats| <= |st| && ChangeOk(ch) && i < |ats| && moved(i, ats[i])
    ensures var ws := Renewed(st, ats, ch, moved);
      var pads := RenumberPads(st, ats, ch, moved);
      ws[i] != [] && NoSep(ws[i], GoSpace) && AllSep(pads[i], GoSpace)
      && Renumbered(st, ats, ch, moved)[i] == pads[i] + ws[i]
  {
    var n := ChangeAt(ch, ats[i]);
    IntTextWord(n);
    NumberWordPlain(IntText(n));
    PadLeftSplit(IntText(n), 3);
    assert AllSep(Repeat(' ', |Pad3(n)| - |IntText(n)|), GoSpace);
  }

  /** What an `adder` promises: the line it returns splits into the fields
      of the line given, each atom field from `after` on carrying its new
      number and every other field unchanged. */
  lemma RenumberLineReads(ch: Change, after: int, atoms: int, s: string)
    requires ChangeOk(ch) && RenumberLine(ch, after, atoms, s).Ok?
    ensures var st := Fields(s);
      var ats := ParseAll(Atoi, st[..FieldCount(atoms, |st|)]).value;
      Fields(RenumberLine(ch, after, atoms, s).value) == Renewed(st, ats, ch, FromAfter(after))
  {
    var st := Fields(s);
    var ats := ParseAll(Atoi, st[..FieldCount(atoms, |st|)]).value;
    RenumberedFields(st, ats, ch, FromAfter(after));
  }

  /** The same for `vsitesn`: the site and constructing atoms above
      `after` carry their new numbers, the rest is unchanged. */
  lemma SitesLineReads(ch: Change, after: int, s: string)
    requires ChangeOk(ch) && SitesLine(ch, after, s).Ok?
    ensures var st := Fields(s);
      Fields(SitesLine(ch, after, s).value) == Renewed(st, ParseAll(Atoi, st).value, ch, SitesAbove(after))
  {
    var st := Fields(s);
    RenumberedFields(st, ParseAll(Atoi, st).value, ch, SitesAbove(after));
  }

  /** `adder(atoms)` as written: besides the line, the value its captured
      `atoms` holds after the call. `atoms = len(st)` overwrites the
      captured parameter, so the first line that has fewer fields than
      `atoms`, or any first line when `atoms <= 0`, fixes the count for
      every later line of every section using the same closure. */
  function RenumberAsWritten(ch: Change, after: int, atoms: int, s: string): (r: (int, Outcome<string>))
    requires ChangeOk(ch)
    ensures r.0 == FieldCount(atoms, |Fields(s)|)
    ensures r.1 == RenumberLine(ch, after, atoms, s)
  {
    var st := Fields(s);
    (if atoms <= 0 || atoms > |st| then |st| else atoms, RenumberLine(ch, after, atoms, s))
  }

  /** The `exclusions` function (`adder(-1)`) of a shift by 10, run as
      written on the lines "1 2" and then "3 4 5", keeps the count 2 from the
      first line and leaves atom 5 of the second unshifted; the function the
      model uses shifts all three. */
  lemma StickyCountAsWritten()
    ensures var ch := Change([], [10]);
      var (a1, _) := RenumberAsWritten(ch, 0, -1, "1 2");
      var (_, r2) := RenumberAsWritten(ch, 0, a1, "3 4 5");
      a1 == 2 && r2 == Ok(" 13  14 5") && RenumberLine(ch, 0, -1, "3 4 5") == Ok(" 13  14  15")
  {
    FieldsOfSample();
    LinesSample();
  }

  lemma LinesSample()
    ensures RenumberLine(Change([], [10]), 0, 2, "3 4 5") == Ok(" 13  14 5")
    ensures RenumberLine(Change([], [10]), 0, -1, "3 4 5") == Ok(" 13  14  15")
  {
    TwoFieldsSample();
    AllFieldsSample();
  }

  lemma TwoFieldsSample()
    ensures RenumberLine(Change([], [10]), 0, 2, "3 4 5") == Ok(" 13  14 5")
  {
    var st := ["3", "4", "5"];
    FieldsOfSample();
    assert FieldCount(2, 3) == 2;
    assert st[..2] == ["3", "4"];
    ReadSample();
    RenumberSample();
    JoinSample();
  }

  lemma AllFieldsSample()
    ensures RenumberLine(Change([], [10]), 0, -1, "3 4 5") == Ok(" 13  14  15")
  {
    var st := ["3", "4", "5"];
    FieldsOfSample();
    assert FieldCount(-1, 3) == 3;
    assert st[..3] == st;
    ReadSample();
    RenumberSample();
    JoinSample();
  }

  lemma JoinSample()
    ensures Join([" 13", " 14", "5"], " ") == " 13  14 5"
    ensures Join([" 13", " 14", " 15"], " ") == " 13  14  15"
  {
  }

  lemma FieldsOfSample()
    ensures Fields("1 2") == ["1", "2"] && Fields("3 4 5") == ["3", "4", "5"]
  {
    FieldsOfJoin(["1", "2"], ' ', "", GoSpace);
    assert Join(["1", "2"], [' ']) + "" == "1 2";
    FieldsOfJoin(["3", "4", "5"], ' ', "", GoSpace);
    assert Join(["3", "4", "5"], [' ']) + "" == "3 4 5";
  }

  lemma AtoiDigit(d: nat)
    requires d < 10
    ensures Atoi([DigitChar(d)]) == Some(d)
  {
    var s := [DigitChar(d)];
    assert s[..0] == [] && AllDigits(s);
    assert DigitsValue(s) == 10 * DigitsValue([]) + DigitValue(s[0]) == d;
    assert ParseInt(s) == Some(d);
  }

  lemma ReadSample()
    ensures ParseAll(Atoi, ["3", "4"]) == Some([3, 4])
    ensures ParseAll(Atoi, ["3", "4", "5"]) == Some([3, 4, 5])
  {
    AtoiDigit(3);
    AtoiDigit(4);
    AtoiDigit(5);
    assert [DigitChar(3)] == "3" && [DigitChar(4)] == "4" && [DigitChar(5)] == "5";
    var r2 := ParseAll(Atoi, ["3", "4"]).value;
    assert r2 == [r2[0], r2[1]];
    var r3 := ParseAll(Atoi, ["3", "4", "5"]).value;
    assert r3 == [r3[0], r3[1], r3[2]];
  }

  lemma RenumberSample()
    ensures Renumbered(["3", "4", "5"], [3, 4], Change([], [10]), FromAfter(0)) == [" 13", " 14", "5"]
    ensures Renumbered(["3", "4", "5"], [3, 4, 5], Change([], [10]), FromAfter(0)) == [" 13", " 14", " 15"]
  {
    assert Pad3(13) == " 13" && Pad3(14) == " 14" && Pad3(15) == " 15";
  }

  // ---------------------------------------------------------------------
  // Go's string order and slices.Sort
  // ---------------------------------------------------------------------

  /** Go's `<` on strings. Go compares the UTF-8 bytes, which orders
      strings as their characters do. */
  predicate Below(a: string, b: string)
    decreases |a|
  {
    |b| > 0 && (|a| == 0 || a[0] < b[0] || (a[0] == b[0] && Below(a[1..], b[1..])))
  }

  lemma {:induction false} BelowAsym(a: string, b: string)
    requires Below(a, b)
    ensures !Below(b, a)
    decreases |a|
  {
    if |a| > 0 && a[0] == b[0] {
      BelowAsym(a[1..], b[1..]);
    }
  }

  lemma {:induction false} BelowTotal(a: string, b: string)
    ensures a == b || Below(a, b) || Below(b, a)
    decreases |a|
  {
    if |a| > 0 && |b| > 0 && a[0] == b[0] {
      BelowTotal(a[1..], b[1..]);
      if a[1..] == b[1..] {
        assert a == [a[0]] + a[1..] && b == [b[0]] + b[1..];
      }
    }
  }

  lemma {:induction false} BelowTrans(a: string, b: string, c: string)
    requires Below(a, b) && Below(b, c)
    ensures Below(a, c)
    decreases |a|
  {
    if |a| > 0 && a[0] == b[0] && b[0] == c[0] {
      BelowTrans(a[1..], b[1..], c[1..]);
    }
  }

  /** In order: no string is below the one before it. */
  predicate Sorted(s: seq<string>) {
    forall i :: 0 < i < |s| ==> !Below(s[i], s[i - 1])
  }

  /** "Not below" is transitive. */
  lemma NotBelowTrans(a: string, b: string, c: string)
    requires !Below(b, a) && !Below(c, b)
    ensures !Below(c, a)
  {
    if a != b && b != c {
      BelowTotal(a, b);
      BelowTotal(b, c);
      BelowTrans(a, b, c);
      BelowAsym(a, c);
    }
  }

  lemma {:induction false} SortedPair(s: seq<string>, i: int, j: int)
    requires Sorted(s) && 0 <= i < j < |s|
    ensures !Below(s[j], s[i])
    decreases j - i
  {
    if i < j - 1 {
      SortedPair(s, i, j - 1);
      NotBelowTrans(s[i], s[j - 1], s[j]);
    }
  }

  /** A sorted list has no string below an earlier one. */
  lemma SortedPairs(s: seq<string>)
    requires Sorted(s)
    ensures forall i, j :: 0 <= i < j < |s| ==> !Below(s[j], s[i])
  {
    forall i, j | 0 <= i < j < |s|
      ensures !Below(s[j], s[i])
    {
      SortedPair(s, i, j);
    }
  }

  /** `k` put into a sorted list before the first string not below it. */
  function Insert(s: seq<string>, k: string): (r: seq<string>)
    ensures |r| == |s| + 1 && multiset(r) == multiset(s) + multiset{k}
    ensures r[0] == k || (s != [] && r[0] == s[0])
    ensures Sorted(s) ==> Sorted(r)
    decreases |s|
  {
    if s == [] then [k]
    else if !Below(s[0], k) then [k] + s
    else
      var rest := Insert(s[1..], k);
      BelowAsym(s[0], k);
      assert s == [s[0]] + s[1..];
      assert Sorted(s) ==> Sorted(s[1..]) by {
        if Sorted(s) {
          forall i | 0 < i < |s[1..]|
            ensures !Below(s[1..][i], s[1..][i - 1])
          {
            assert s[1..][i] == s[i + 1] && s[1..][i - 1] == s[i];
          }
        }
      }
      [s[0]] + rest
  }

  /** `slices.Sort` on strings: the same strings, in order. */
  function SortStrings(s: seq<string>): (r: seq<string>)
    ensures multiset(r) == multiset(s) && Sorted(r)
    decreases |s|
  {
    if s == [] then []
    else
      assert s == s[..|s| - 1] + [s[|s| - 1]];
      Insert(SortStrings(s[..|s| - 1]), s[|s| - 1])
  }

  // ---------------------------------------------------------------------
  // TermSelect
  // ---------------------------------------------------------------------

  /** The headers `NewTermSelect` creates. */
  const Standard: set<string> :=
    {"atoms", "bonds", "angles", "constraints", "dihedrals", "exclusions", "vsitesn", "nonskiplines", "default"}

  /** A function or nil. */
  predicate OptOk(f: Option<LineFn>) {
    f.Some? ==> FnOk(f.value)
  }

  /** The function a nil entry stands for: `GetOrDefault`'s do-nothing. */
  function OrKeep(f: Option<LineFn>): LineFn {
    if f.Some? then f.value else Keep
  }

  /** `SetMany`'s loop on the map `m`: the map after the headers `hs` are
      set, in order, to the functions of `fs`, with the error naming the
      headers that were not in the map when their turn came, the latest
      first. */
  function SetManyOf(m: map<string, Option<LineFn>>, hs: seq<string>, fs: seq<Option<LineFn>>): (r: (map<string, Option<LineFn>>, Option<string>))
    requires |hs| <= |fs|
    decreases |hs|
  {
    if hs == [] then (m, None)
    else
      var (m0, e0) := SetManyOf(m, hs[..|hs| - 1], fs);
      var v := hs[|hs| - 1];
      var e1 := if v in m0 then e0
                else if e0.None? then Some("term " + v + " not supported")
                else Some("term " + v + " not supported - " + e0.value);
      (m0[v := fs[|hs| - 1]], e1)
  }

  /** Every header given ends up in the map, known or not. */
  lemma {:induction false} SetManyKeys(m: map<string, Option<LineFn>>, hs: seq<string>, fs: seq<Option<LineFn>>)
    requires |hs| <= |fs|
    ensures SetManyOf(m, hs, fs).0.Keys == m.Keys + set x | x in hs
    decreases |hs|
  {
    if hs != [] {
      var init := hs[..|hs| - 1];
      SetManyKeys(m, init, fs);
      assert hs == init + [hs[|hs| - 1]];
      assert (set x | x in hs) == (set x | x in init) + {hs[|hs| - 1]};
    }
  }

  /** There is an error exactly when some header given was not in the
      map to begin with. */
  lemma {:induction false} SetManyError(m: map<string, Option<LineFn>>, hs: seq<string>, fs: seq<Option<LineFn>>)
    requires |hs| <= |fs|
    ensures SetManyOf(m, hs, fs).1.Some? <==> exists x :: x in hs && x !in m
    decreases |hs|
  {
    if hs != [] {
      var init := hs[..|hs| - 1];
      var v := hs[|hs| - 1];
      SetManyError(m, init, fs);
      SetManyKeys(m, init, fs);
      assert hs == init + [v];
      assert forall x :: x in hs <==> x in init || x == v;
    }
  }

  /** The headers not given keep their functions. */
  lemma {:induction false} SetManyKeeps(m: map<string, Option<LineFn>>, hs: seq<string>, fs: seq<Option<LineFn>>, k: string)
    requires |hs| <= |fs| && k in m && k !in hs
    ensures k in SetManyOf(m, hs, fs).0 && SetManyOf(m, hs, fs).0[k] == m[k]
    decreases |hs|
  {
    if hs != [] {
      var init := hs[..|hs| - 1];
      assert hs == init + [hs[|hs| - 1]];
      SetManyKeeps(m, init, fs, k);
    }
  }

  /** A header given gets the function of its last listing. */
  lemma {:induction false} SetManyLast(m: map<string, Option<LineFn>>, hs: seq<string>, fs: seq<Option<LineFn>>, i: int)
    requires |hs| <= |fs| && 0 <= i < |hs| && hs[i] !in hs[i + 1..]
    ensures hs[i] in SetManyOf(m, hs, fs).0 && SetManyOf(m, hs, fs).0[hs[i]] == fs[i]
    decreases |hs|
  {
    var init := hs[..|hs| - 1];
    if i < |init| {
      assert hs[i + 1..] == init[i + 1..] + [hs[|hs| - 1]];
      assert init[i] == hs[i];
      SetManyLast(m, init, fs, i);
    }
  }

  /** Taking one more key out of the keys left adds it to those done. */
  lemma DoneOneMore(picked: set<string>, keys: set<string>, k: string)
    requires k in keys && k in picked
    ensures multiset(picked - (keys - {k})) == multiset(picked - keys) + multiset{k}
  {
    assert picked - (keys - {k}) == (picked - keys) + {k};
  }

  /** `TermSelect`: the functions set for the section headers. */
  class TermSelect {
    var m: map<string, Option<LineFn>>

    /** The standard headers are there (nothing removes a header; the
        two `FuncApplier` looks up are named again for the verifier's
        sake), and the renumbering functions have usable plans. */
    ghost predicate Valid()
      reads this
    {
      Standard <= m.Keys
      && "default" in m && "nonskiplines" in m
      && forall h :: h in m ==> OptOk(m[h])
    }

    /** The cells of the functions set. */
    ghost function Cells(): set<Cell>
      reads this
    {
      set h | h in m && m[h].Some? && m[h].value.HasCell() :: m[h].value.cell
    }

    /** What the cells hold. */
    ghost function Env(): map<Cell, CellVal>
      reads this, Cells()
    {
      map c | c in Cells() :: c.Val()
    }

    /** `NewTermSelect`: the nine standard headers, each set to nil. */
    constructor ()
      ensures Valid() && m == map h | h in Standard :: None
    {
      var t: map<string, Option<LineFn>> := map[];
      t := t["atoms" := None];
      t := t["bonds" := None];
      t := t["angles" := None];
      t := t["constraints" := None];
      t := t["dihedrals" := None];
      t := t["exclusions" := None];
      t := t["vsitesn" := None];
      t := t["nonskiplines" := None];
      t := t["default" := None];
      m := t;
    }

    /** `NTerms`: the number of headers. */
    method NTerms() returns (n: nat)
      ensures n == |m.Keys|
    {
      n := |m.Keys|;
    }

    /** `GetErr`: an unknown header and a nil function are errors. */
    method GetErr(header: string) returns (f: Option<LineFn>, r: Outcome<()>)
      ensures header !in m ==> f.None? && r == Err("TermSelect.Get: Attempted to get unsuported value: " + header)
      ensures header in m && m[header].None? ==> f.None? && r == Err("Warning: Function set to nil")
      ensures header in m && m[header].Some? ==> f == m[header] && r == Ok(())
      ensures r.Ok? <==> header in m && m[header].Some?
    {
      if header !in m {
        return None, Err("TermSelect.Get: Attempted to get unsuported value: " + header);
      }
      f := m[header];
      if f.None? {
        return f, Err("Warning: Function set to nil");
      }
      return f, Ok(());
    }

    /** `Get`, which panics on an unknown header. */
    method Get(header: string) returns (f: Option<LineFn>)
      requires header in m
      ensures f == m[header]
    {
      f := m[header];
    }

    /** `GetOrDefault`: the function set, or the do-nothing function for a
        nil entry; it panics on an unknown header. */
    method GetOrDefault(header: string) returns (f: LineFn)
      requires header in m
      ensures m[header].Some? ==> f == m[header].value
      ensures m[header].None? ==> f == Keep
    {
      var val := m[header];
      if val.None? {
        return Keep;
      }
      return val.value;
    }

    /** `Set`, which panics on an unknown header. */
    method Set(header: string, s: Option<LineFn>)
      requires header in m && OptOk(s)
      modifies this
      ensures m == old(m)[header := s]
      ensures old(Valid()) ==> Valid()
    {
      m := m[header := s];
    }

    /** `SetErr`: `Set` with the panic of an unknown header turned into an
        error. */
    method SetErr(header: string, s: Option<LineFn>) returns (r: Outcome<()>)
      requires OptOk(s)
      modifies this
      ensures header in old(m) ==> r == Ok(()) && m == old(m)[header := s]
      ensures header !in old(m) ==> r == Err("term not supported") && m == old(m)
    {
      if header !in m {
        return Err("term not supported");
      }
      Set(header, s);
      return Ok(());
    }

    /** `SetMany`: nil headers, or fewer functions than headers, are errors
        that change nothing; otherwise each header is set in turn, and the
        headers not known are reported, yet set all the same. */
    method SetMany(headers: Option<seq<string>>, s: seq<Option<LineFn>>) returns (r: Outcome<()>)
      requires forall i :: 0 <= i < |s| ==> OptOk(s[i])
      requires Valid()
      modifies this
      ensures Valid()
      ensures headers.None? ==> r == Err("TermSelect.Set: No term given") && m == old(m)
      ensures headers.Some? && |headers.value| > |s| ==>
        r == Err("TermSelect.Set: Not enough strings for the headers to be set") && m == old(m)
      ensures headers.Some? && |headers.value| <= |s| ==>
        var (m1, e) := SetManyOf(old(m), headers.value, s);
        m == m1 && r == if e.None? then Ok(()) else Err(e.value)
    {
      if headers.None? {
        return Err("TermSelect.Set: No term given");
      }
      var hs := headers.value;
      if |hs| > |s| {
        return Err("TermSelect.Set: Not enough strings for the headers to be set");
      }
      var err: Option<string> := None;
      for i := 0 to |hs|
        invariant (m, err) == SetManyOf(old(m), hs[..i], s)
        invariant Valid()
      {
        assert hs[..i + 1][..i] == hs[..i];
        var v := hs[i];
        if v !in m {
          if err.None? {
            err := Some("term " + v + " not supported");
          } else {
            err := Some("term " + v + " not supported - " + err.value);
          }
        }
        m := m[v := s[i]];
      }
      assert hs[..|hs|] == hs;
      if err.None? {
        return Ok(());
      }
      return Err(err.value);
    }

    /** `SetAll`: every header is set to the first function given, or to the
        do-nothing function when none or nil is given. */
    method SetAll(f: seq<Option<LineFn>>)
      requires |f| > 0 ==> OptOk(f[0])
      requires Valid()
      modifies this
      ensures Valid()
      ensures m == map k | k in old(m) :: Some(if |f| > 0 && f[0].Some? then f[0].value else Keep)
    {
      var fu := Keep;
      if |f| > 0 && f[0].Some? {
        fu := f[0].value;
      }
      var keys := m.Keys;
      while keys != {}
        invariant keys <= m.Keys == old(m).Keys
        invariant forall k :: k in m ==> m[k] == if k in keys then old(m)[k] else Some(fu)
        decreases |keys|
      {
        var k :| k in keys;
        m := m[k := Some(fu)];
        keys := keys - {k};
      }
    }

    /** `Headers`: the headers in order; with `true` as first argument, only
        those set to a function. */
    method Headers(onlySelected: seq<bool>) returns (ret: seq<string>)
      ensures var sel := |onlySelected| > 0 && onlySelected[0];
        multiset(ret) == multiset(set k | k in m && (!sel || m[k].Some?))
      ensures Sorted(ret)
    {
      var sel := |onlySelected| > 0 && onlySelected[0];
      ghost var picked := set k | k in m && (!sel || m[k].Some?);
      var found: seq<string> := [];
      var keys := m.Keys;
      while keys != {}
        invariant keys <= m.Keys
        invariant multiset(found) == multiset(picked - keys)
        decreases |keys|
      {
        var k :| k in keys;
        if !sel || m[k].Some? {
          DoneOneMore(picked, keys, k);
          found := found + [k];
        } else {
          assert picked - (keys - {k}) == picked - keys;
        }
        keys := keys - {k};
      }
      ret := SortStrings(found);
    }
  }

  // ---------------------------------------------------------------------
  // TopInMem
  // ---------------------------------------------------------------------

  /** The lines `TopInMemFromFile` keeps of a file's contents: each
      newline-terminated line, without its newline; a last line with no
      newline is dropped, as reading stops at the first `io.EOF`. */
  function LinesOf(s: string): seq<string>
    decreases |s|
  {
    var ln := ReadLine(s);
    if ln.eof then [] else [TrimSuffix(ln.text, "\n")] + LinesOf(ln.rest)
  }

  lemma ConcatAssoc<T>(a: seq<T>, b: seq<T>, c: seq<T>)
    ensures a + b + c == a + (b + c)
  {
  }

  lemma LinesStep(s: string)
    ensures var ln := ReadLine(s);
      LinesOf(s) == if ln.eof then [] else [TrimSuffix(ln.text, "\n")] + LinesOf(ln.rest)
  {
  }

  /** One pass of the loop of `TopInMemFromFile`: the lines kept so far
      and those of the unread text `s`. */
  lemma LinesNext(lines: seq<string>, s: string)
    ensures var ln := ReadLine(s);
      (ln.eof ==> lines + LinesOf(s) == lines)
      && (!ln.eof ==> |ln.rest| < |s| && lines + LinesOf(s) == lines + [TrimSuffix(ln.text, "\n")] + LinesOf(ln.rest))
  {
    var ln := ReadLine(s);
    LinesStep(s);
    if !ln.eof {
      ConcatAssoc(lines, [TrimSuffix(ln.text, "\n")], LinesOf(ln.rest));
    }
  }

  /** A line read by `ReadLine` that is not the end of the text loses its
      newline, and only that, to `TrimSuffix`. */
  lemma ChompRead(s: string)
    requires !ReadLine(s).eof
    ensures var txt := ReadLine(s).text;
      TrimSuffix(txt, "\n") + "\n" == txt && '\n' !in TrimSuffix(txt, "\n")
  {
    var txt := ReadLine(s).text;
    assert txt[|txt| - 1..] == "\n";
  }

  /** What `WriteToFile` writes: each line followed by a newline. */
  function FileText(t: seq<string>): string {
    if t == [] then "" else t[0] + "\n" + FileText(t[1..])
  }

  lemma {:induction false} FileTextSnoc(t: seq<string>, x: string)
    ensures FileText(t + [x]) == FileText(t) + x + "\n"
    decreases |t|
  {
    if t != [] {
      assert (t + [x])[1..] == t[1..] + [x];
      FileTextSnoc(t[1..], x);
    }
  }

  /** Reading back what `WriteToFile` wrote gives the lines. */
  lemma {:induction false} LinesOfFileText(t: seq<string>)
    requires forall i :: 0 <= i < |t| ==> '\n' !in t[i]
    ensures LinesOf(FileText(t)) == t
    decreases |t|
  {
    if t != [] {
      var rest := FileText(t[1..]);
      ReadLineOf(t[0], rest);
      LinesStep(t[0] + "\n" + rest);
      ChompOf(t[0]);
      LinesOfFileText(t[1..]);
      ConsSplit(t);
    }
  }

  lemma ChompOf(l: string)
    ensures TrimSuffix(l + "\n", "\n") == l
  {
    assert (l + "\n")[|l + "\n"| - 1..] == "\n";
    assert (l + "\n")[..|l|] == l;
  }

  lemma FileTextCons(l: string, u: seq<string>)
    ensures FileText([l] + u) == l + "\n" + FileText(u)
  {
    assert ([l] + u)[1..] == u;
  }

  lemma ConsSplit<T>(t: seq<T>)
    requires t != []
    ensures [t[0]] + t[1..] == t
  {
  }

  /** Writing back what was read from a file that ends with a newline (or
      is empty) gives the file. */
  lemma {:induction false} FileTextOfLines(s: string)
    requires s == [] || s[|s| - 1] == '\n'
    ensures FileText(LinesOf(s)) == s
    decreases |s|
  {
    var ln := ReadLine(s);
    if ln.eof {
      LinesStep(s);
    } else {
      if ln.rest != [] {
        assert ln.rest[|ln.rest| - 1] == s[|s| - 1];
      }
      FileTextOfLines(ln.rest);
      FileTextOfLinesNext(s);
    }
  }

  /** The step of `FileTextOfLines`: the first line, then the rest. */
  lemma FileTextOfLinesNext(s: string)
    requires !ReadLine(s).eof && FileText(LinesOf(ReadLine(s).rest)) == ReadLine(s).rest
    ensures FileText(LinesOf(s)) == s
  {
    var ln := ReadLine(s);
    var l := TrimSuffix(ln.text, "\n");
    LinesStep(s);
    ChompRead(s);
    FileTextCons(l, LinesOf(ln.rest));
    calc {
      FileText(LinesOf(s));
      FileText([l] + LinesOf(ln.rest));
      l + "\n" + ln.rest;
      ln.text + ln.rest;
    }
  }

  /** The characters `Clean` trims: `"\t; \n"`. */
  predicate CleanCut(c: char) {
    c == '\t' || c == ';' || c == ' ' || c == '\n'
  }

  /** A line of tabs, semicolons, blanks and newlines only. */
  predicate BlankLine(v: string) {
    AllSep(v, CleanCut)
  }

  /** `Clean`'s test `strings.Trim(v, "\t; \n") == ""` holds exactly for
      the blank lines. */
  lemma TrimBlank(v: string)
    ensures TrimFunc(v, CleanCut) == "" <==> BlankLine(v)
  {
    var l := TrimLeftFunc(v, CleanCut);
    if l == [] {
      assert v[..|v|] == v;
    } else {
      assert v[|v| - |l|] == l[0];
    }
  }

  /** `Clean` drops line `j`: a blank line that is not the last one and
      does not come right before a header. */
  predicate Dropped(t: seq<string>, j: int, isHeader: string -> bool)
    requires 0 <= j < |t|
  {
    BlankLine(t[j]) && j < |t| - 1 && !isHeader(t[j + 1])
  }

  /** The lines of `t[..n]` `Clean` keeps. */
  function CleanedTo(t: seq<string>, n: nat, isHeader: string -> bool): (r: seq<string>)
    requires n <= |t|
    ensures |r| <= n
  {
    if n == 0 then []
    else CleanedTo(t, n - 1, isHeader) + (if Dropped(t, n - 1, isHeader) then [] else [t[n - 1]])
  }

  /** The non-blank lines of `s`, in order. */
  function NonBlank(s: seq<string>): seq<string> {
    if s == [] then [] else NonBlank(s[..|s| - 1]) + (if BlankLine(s[|s| - 1]) then [] else [s[|s| - 1]])
  }

  lemma {:induction false} NonBlankAppend(a: seq<string>, b: seq<string>)
    ensures NonBlank(a + b) == NonBlank(a) + NonBlank(b)
    decreases |b|
  {
    if b != [] {
      var b0 := b[..|b| - 1];
      assert (a + b)[..|a + b| - 1] == a + b0;
      NonBlankAppend(a, b0);
    } else {
      assert a + b == a;
    }
  }

  /** `Clean` drops blank lines only: the non-blank lines stay, all of
      them and in order. */
  lemma {:induction false} CleanedKeepsText(t: seq<string>, n: nat, isHeader: string -> bool)
    requires n <= |t|
    ensures NonBlank(CleanedTo(t, n, isHeader)) == NonBlank(t[..n])
    decreases n
  {
    if n == 0 {
      assert t[..n] == [];
      assert NonBlank(CleanedTo(t, n, isHeader)) == [];
    } else {
      CleanedKeepsText(t, n - 1, isHeader);
      CleanedStep(t, n, isHeader);
      NonBlankPrefix(t, n);
      assert NonBlank(CleanedTo(t, n, isHeader)) == NonBlank(t[..n - 1]) + NonBlankOf(t[n - 1]);
    }
  }

  lemma CleanedStep(t: seq<string>, n: nat, isHeader: string -> bool)
    requires 0 < n <= |t|
    ensures NonBlank(CleanedTo(t, n, isHeader))
      == NonBlank(CleanedTo(t, n - 1, isHeader)) + NonBlankOf(t[n - 1])
  {
    var a := CleanedTo(t, n - 1, isHeader);
    var y := t[n - 1];
    var x: seq<string> := if Dropped(t, n - 1, isHeader) then [] else [y];
    NonBlankAppend(a, x);
    NonBlankOne(y);
  }

  lemma NonBlankPrefix(t: seq<string>, n: nat)
    requires 0 < n <= |t|
    ensures NonBlank(t[..n]) == NonBlank(t[..n - 1]) + NonBlankOf(t[n - 1])
  {
    NonBlankSnoc(t[..n - 1], t[n - 1]);
    PrefixSnoc(t, n);
  }

  /** What `NonBlank` keeps of one line. */
  function NonBlankOf(y: string): seq<string> {
    if BlankLine(y) then [] else [y]
  }

  lemma NonBlankOne(y: string)
    ensures NonBlank([y]) == NonBlankOf(y)
  {
    assert [y][..0] == [];
  }

  lemma NonBlankSnoc(s: seq<string>, y: string)
    ensures NonBlank(s + [y]) == NonBlank(s) + NonBlankOf(y)
  {
    assert (s + [y])[..|s|] == s;
  }

  lemma PrefixSnoc<T>(t: seq<T>, n: nat)
    requires 0 < n <= |t|
    ensures t[..n] == t[..n - 1] + [t[n - 1]]
  {
  }

  /** `Clean` keeps the last line, and keeps every line that is not blank
      or that comes right before a header. */
  lemma CleanedKeeps(t: seq<string>, isHeader: string -> bool, j: int)
    requires 0 <= j < |t| && (j == |t| - 1 || !BlankLine(t[j]) || isHeader(t[j + 1]))
    ensures t[j] in CleanedTo(t, |t|, isHeader)
  {
    KeptIn(t, isHeader, j, |t|);
  }

  lemma {:induction false} KeptIn(t: seq<string>, isHeader: string -> bool, j: int, n: nat)
    requires 0 <= j < n <= |t| && !Dropped(t, j, isHeader)
    ensures t[j] in CleanedTo(t, n, isHeader)
    decreases n
  {
    if j < n - 1 {
      KeptIn(t, isHeader, j, n - 1);
    }
  }

  /** A topology held in memory: its lines and the cursor `i`, the number
      of lines read since the last rewind. */
  class TopInMem {
    var t: seq<string>
    var i: nat

    /** `NewTopInMem`. */
    constructor (t: seq<string>)
      ensures this.t == t && i == 0
    {
      this.t, i := t, 0;
    }

    /** `TopInMemFromFile`, on the contents of the file. */
    static method FromText(contents: string) returns (top: TopInMem)
      ensures fresh(top) && top.t == LinesOf(contents) && top.i == 0
    {
      ghost var goal := LinesOf(contents);
      var lines: seq<string> := [];
      var rest := contents;
      while true
        invariant goal == lines + LinesOf(rest)
        decreases |rest|
      {
        var ln := ReadLine(rest);
        LinesNext(lines, rest);
        if ln.eof {
          break;
        }
        lines, rest := lines + [TrimSuffix(ln.text, "\n")], ln.rest;
      }
      top := new TopInMem(lines);
    }

    /** `Copy`: a new topology with the same lines, not yet read. */
    method Copy() returns (c: TopInMem)
      ensures fresh(c) && c.t == t && c.i == 0
    {
      c := new TopInMem(t);
    }

    /** `Reset`: rewind. */
    method Reset()
      modifies this
      ensures t == old(t) && i == 0
    {
      i := 0;
    }

    /** `Len`: the number of lines. */
    method Len() returns (n: nat)
      ensures n == |t|
    {
      n := |t|;
    }

    /** `WriteString`: append a line; it returns the bytes written, the
        length of `s` in UTF-8. */
    method WriteString(s: string) returns (n: nat)
      modifies this
      ensures t == old(t) + [s] && i == old(i) && n == Utf8Len(s)
    {
      t := t + [s];
      n := Utf8Len(s);
    }

    /** `ReplaceString`: overwrite the line read last. With no line read
        (or a cursor past the end) the Go code panics. */
    method ReplaceString(s: string)
      requires 1 <= i <= |t|
      modifies this
      ensures i == old(i) && t == old(t)[old(i) - 1 := s]
    {
      t := t[i - 1 := s];
    }

    /** `ReadString`: the next line, or, at the end, `io.EOF` and a rewind
        to the first line. */
    method ReadString() returns (line: string, eof: bool)
      modifies this
      ensures t == old(t)
      ensures old(i) >= |t| ==> eof && line == "" && i == 0
      ensures old(i) < |t| ==> !eof && line == t[old(i)] && i == old(i) + 1
    {
      if i >= |t| {
        i := 0;
        return "", true;
      }
      i := i + 1;
      return t[i - 1], false;
    }

    /** `WriteToFile`: the text written to the file. */
    method WriteToFile() returns (text: string)
      ensures text == FileText(t)
    {
      text := "";
      for j := 0 to |t|
        invariant text == FileText(t[..j])
      {
        FileTextSnoc(t[..j], t[j]);
        assert t[..j + 1] == t[..j] + [t[j]];
        text := text + t[j] + "\n";
      }
      assert t[..|t|] == t;
    }

    /** `Clean`: drop the blank lines (those of tabs, blanks, semicolons
        and newlines only) that are neither last nor right before a
        header. */
    method Clean(isHeader: string -> bool)
      modifies this
      ensures t == CleanedTo(old(t), |old(t)|, isHeader) && i == old(i)
    {
      var lines := t;
      var newt: seq<string> := [];
      for j := 0 to |lines|
        invariant newt == CleanedTo(lines, j, isHeader) && i == old(i)
      {
        var v := lines[j];
        TrimBlank(v);
        if TrimFunc(v, CleanCut) == "" {
          if j < |lines| - 1 && !isHeader(lines[j + 1]) {
            continue;
          }
        }
        newt := newt + [v];
      }
      t := newt;
    }
  }

  // ---------------------------------------------------------------------
  // FuncApplier
  // ---------------------------------------------------------------------

  /** Where `FuncApplier` is: the function of the current section and that
      section's header. */
  datatype Cursor = Cursor(fn: LineFn, header: string)

  /** What `FuncApplier` does with a line: replace it, or return. */
  datatype Edit = Put(line: string) | Stop(r: Outcome<()>)

  /** The functions of `sel` are usable and their cells are among those
      `env` describes. */
  predicate EnvOk(sel: map<string, Option<LineFn>>, env: map<Cell, CellVal>) {
    forall h :: h in sel ==> OptOk(sel[h]) && CellsOf(OrKeep(sel[h])) <= env.Keys
  }

  predicate CursorOk(cur: Cursor, env: map<Cell, CellVal>) {
    FnOk(cur.fn) && CellsOf(cur.fn) <= env.Keys
  }

  /** Calling `fn` on `s` when the cells hold `env`: the cells afterwards
      and the result. */
  function Call(fn: LineFn, env: map<Cell, CellVal>, s: string): (r: (map<Cell, CellVal>, Outcome<string>))
    requires FnOk(fn) && CellsOf(fn) <= env.Keys
    ensures r.0.Keys == env.Keys
  {
    if fn.HasCell() then
      var (v, o) := Step(fn, env[fn.cell], s);
      (env[fn.cell := v], o)
    else (env, Step(fn, CellVal("", []), s).1)
  }

  /** The comment `FuncApplier` puts back after a line split on ";". */
  function Comment(ls: seq<string>): string {
    if |ls| > 1 then "; " + Join(ls[1..], " ") else ""
  }

  /** `FuncApplier` on one line `fl`: a line starting with ";" stays;
      any other is split at its first ";" into the line proper and its
      comment. */
  function LineStep(sel: map<string, Option<LineFn>>, cur: Cursor, env: map<Cell, CellVal>, fl: string,
                    isHeader: string -> bool, which: string -> string): (r: (Cursor, map<Cell, CellVal>, Edit))
    requires "nonskiplines" in sel && EnvOk(sel, env) && CursorOk(cur, env)
    ensures r.1.Keys == env.Keys && CursorOk(r.0, r.1)
    ensures r.2.Stop? ==> !r.2.r.Ok?
  {
    if HasPrefix(fl, ";") then (cur, env, Put(fl))
    else
      var ls := Split(fl, ";");
      PartStep(sel, cur, env, ls[0], Comment(ls), isHeader, which)
  }

  /** The line proper `l`, with comment `co`: a line with no fields goes
      to the `nonskiplines` function (the do-nothing one when nil); a line
      with "#" stays; a header makes its function current when one is set
      for it; any other line goes to the current function. */
  function PartStep(sel: map<string, Option<LineFn>>, cur: Cursor, env: map<Cell, CellVal>, l: string, co: string,
                    isHeader: string -> bool, which: string -> string): (r: (Cursor, map<Cell, CellVal>, Edit))
    requires "nonskiplines" in sel && EnvOk(sel, env) && CursorOk(cur, env)
    ensures r.1.Keys == env.Keys && CursorOk(r.0, r.1)
    ensures r.2.Stop? ==> !r.2.r.Ok?
  {
    if |Fields(l)| == 0 then RunStep(OrKeep(sel["nonskiplines"]), cur, env, l, co, "")
    else if Contains(l, "#") then (cur, env, Put(l + co))
    else if isHeader(l) then
      var h := which(l);
      (if h in sel && sel[h].Some? then Cursor(sel[h].value, h) else cur, env, Put(l + co))
    else RunStep(cur.fn, cur, env, l, co, "Problem with header " + cur.header + ": ")
  }

  /** Running `fn` on `l`: its result, with the comment `co` put back, or
      its error, behind `prefix`, which stops the walk. */
  function RunStep(fn: LineFn, cur: Cursor, env: map<Cell, CellVal>, l: string, co: string, prefix: string): (r: (Cursor, map<Cell, CellVal>, Edit))
    requires FnOk(fn) && CellsOf(fn) <= env.Keys && CursorOk(cur, env)
    ensures r.0 == cur && r.1.Keys == env.Keys
    ensures r.2.Stop? ==> !r.2.r.Ok?
  {
    var (env1, o) := Call(fn, env, l);
    match o
    case Ok(li) => (cur, env1, Put(li + co))
    case Err(e) => (cur, env1, Stop(Err(prefix + e)))
    case Panic(p) => (cur, env1, Stop(Panic(p)))
  }

  /** `FuncApplier`'s loop from line `k` on: the lines, the cursor of the
      topology, the cells and the result when it returns. The topology
      rewinds to its first line at the end; an error leaves it after the
      line that failed. */
  function Edited(t: seq<string>, k: nat, sel: map<string, Option<LineFn>>, cur: Cursor, env: map<Cell, CellVal>,
                  isHeader: string -> bool, which: string -> string): (r: (seq<string>, nat, map<Cell, CellVal>, Outcome<()>))
    requires "nonskiplines" in sel && EnvOk(sel, env) && CursorOk(cur, env)
    ensures |r.0| == |t| && r.2.Keys == env.Keys
    decreases |t| - k
  {
    if k >= |t| then (t, 0, env, Ok(()))
    else
      var (cur1, env1, e) := LineStep(sel, cur, env, t[k], isHeader, which);
      match e
      case Stop(o) => (t, k + 1, env1, o)
      case Put(x) => Edited(t[k := x], k + 1, sel, cur1, env1, isHeader, which)
  }

  /** `FuncApplier` on a topology whose next line is `k`, starting with the
      `default` function. */
  function Applied(t: seq<string>, k: nat, sel: map<string, Option<LineFn>>, env: map<Cell, CellVal>,
                   isHeader: string -> bool, which: string -> string): (r: (seq<string>, nat, map<Cell, CellVal>, Outcome<()>))
    requires "default" in sel && "nonskiplines" in sel && EnvOk(sel, env)
    ensures |r.0| == |t| && r.2.Keys == env.Keys
    ensures (r.3.Ok? <==> r.1 == 0) && (!r.3.Ok? ==> k < r.1 <= |t|)
  {
    EditedStops(t, k, sel, Cursor(OrKeep(sel["default"]), ""), env, isHeader, which);
    Edited(t, k, sel, Cursor(OrKeep(sel["default"]), ""), env, isHeader, which)
  }

  /** Calling `fn`, whose cell (if any) belongs to `T`. */
  method CallIn(T: TermSelect, fn: LineFn, s: string) returns (o: Outcome<string>)
    requires FnOk(fn) && CellsOf(fn) <= T.Cells()
    modifies T.Cells()
    ensures (T.Env(), o) == Call(fn, old(T.Env()), s)
  {
    o := Apply(fn, s);
    if fn.HasCell() {
      assert T.Env() == old(T.Env())[fn.cell := fn.cell.Val()];
    }
  }

  /** One turn of `FuncApplier`'s loop, on the line `fl` just read. */
  method EditLine(T: TermSelect, cur: Cursor, fl: string, isHeader: string -> bool, which: string -> string)
    returns (cur1: Cursor, e: Edit)
    requires T.Valid() && CursorOk(cur, T.Env())
    modifies T.Cells()
    ensures (cur1, T.Env(), e) == LineStep(T.m, cur, old(T.Env()), fl, isHeader, which)
  {
    if HasPrefix(fl, ";") {
      return cur, Put(fl);
    }
    var ls := Split(fl, ";");
    cur1, e := EditPart(T, cur, ls[0], Comment(ls), isHeader, which);
  }

  method EditPart(T: TermSelect, cur: Cursor, l: string, co: string, isHeader: string -> bool, which: string -> string)
    returns (cur1: Cursor, e: Edit)
    requires T.Valid() && CursorOk(cur, T.Env())
    modifies T.Cells()
    ensures (cur1, T.Env(), e) == PartStep(T.m, cur, old(T.Env()), l, co, isHeader, which)
  {
    if |Fields(l)| == 0 {
      var f := T.GetOrDefault("nonskiplines");
      e := Run(T, f, cur, l, co, "");
      return cur, e;
    }
    cur1, e := EditFilled(T, cur, l, co, isHeader, which);
  }

  /** `EditPart` on a part with at least one field. */
  method EditFilled(T: TermSelect, cur: Cursor, l: string, co: string, isHeader: string -> bool, which: string -> string)
    returns (cur1: Cursor, e: Edit)
    requires T.Valid() && CursorOk(cur, T.Env()) && |Fields(l)| != 0
    modifies T.Cells()
    ensures (cur1, T.Env(), e) == PartStep(T.m, cur, old(T.Env()), l, co, isHeader, which)
  {
    if Contains(l, "#") {
      return cur, Put(l + co);
    }
    if isHeader(l) {
      cur1 := Section(T, cur, which(l));
      return cur1, Put(l + co);
    }
    e := Run(T, cur.fn, cur, l, co, "Problem with header " + cur.header + ": ");
    return cur, e;
  }

  /** The header `h` makes its function current when `T.Get(h)` has one. */
  method Section(T: TermSelect, cur: Cursor, h: string) returns (cur1: Cursor)
    ensures h in T.m && T.m[h].Some? ==> cur1 == Cursor(T.m[h].value, h)
    ensures !(h in T.m && T.m[h].Some?) ==> cur1 == cur
  {
    var fun, er := T.GetErr(h);
    cur1 := cur;
    if er.Ok? {
      cur1 := Cursor(fun.value, h);
    }
  }

  method Run(T: TermSelect, fn: LineFn, ghost cur: Cursor, l: string, co: string, prefix: string) returns (e: Edit)
    requires FnOk(fn) && CellsOf(fn) <= T.Cells() && CursorOk(cur, T.Env())
    modifies T.Cells()
    ensures (cur, T.Env(), e) == RunStep(fn, cur, old(T.Env()), l, co, prefix)
  {
    var o := CallIn(T, fn, l);
    match o {
      case Ok(li) => e := Put(li + co);
      case Err(msg) => e := Stop(Err(prefix + msg));
      case Panic(p) => e := Stop(Panic(p));
    }
  }

  /** `FuncApplier(top, T)`: rewrite every line of `top` from its cursor on
      with the function of its section; `isHeader` and `which` are the
      header recognizer's `Is` and `Which`. */
  method FuncApplier(top: TopInMem, T: TermSelect, isHeader: string -> bool, which: string -> string)
    returns (r: Outcome<()>)
    requires T.Valid()
    modifies top, T.Cells()
    ensures (top.t, top.i, T.Env(), r) == Applied(old(top.t), old(top.i), T.m, old(T.Env()), isHeader, which)
  {
    var f := T.GetOrDefault("default");
    var cur := Cursor(f, "");
    ghost var goal := Applied(top.t, top.i, T.m, T.Env(), isHeader, which);
    while true
      invariant CursorOk(cur, T.Env())
      invariant Edited(top.t, top.i, T.m, cur, T.Env(), isHeader, which) == goal
      decreases if top.i <= |top.t| then |top.t| - top.i else 0
    {
      var cur1, done;
      cur1, done, r := Turn(top, T, cur, isHeader, which);
      if done {
        return;
      }
      cur := cur1;
    }
  }

  /** One turn of `FuncApplier`'s loop: read a line and, unless the
      topology has ended or the line stops the walk, replace it. */
  method Turn(top: TopInMem, T: TermSelect, cur: Cursor, isHeader: string -> bool, which: string -> string)
    returns (cur1: Cursor, done: bool, r: Outcome<()>)
    requires T.Valid() && CursorOk(cur, T.Env())
    modifies top, T.Cells()
    ensures CursorOk(cur1, T.Env())
    ensures done ==> (top.t, top.i, T.Env(), r) == Edited(old(top.t), old(top.i), T.m, cur, old(T.Env()), isHeader, which)
    ensures !done ==> (old(top.i) < |old(top.t)| && top.i == old(top.i) + 1 && |top.t| == |old(top.t)|
      && Edited(top.t, top.i, T.m, cur1, T.Env(), isHeader, which) == Edited(old(top.t), old(top.i), T.m, cur, old(T.Env()), isHeader, which))
  {
    var fl, eof := Read(top, T);
    if eof {
      EditedEnd(old(top.t), old(top.i), T.m, cur, T.Env(), isHeader, which);
      return cur, true, Ok(());
    }
    cur1, done, r := Rewrite(top, T, cur, fl, isHeader, which);
  }

  /** The rest of a turn, on the line `fl` just read. */
  method Rewrite(top: TopInMem, T: TermSelect, cur: Cursor, fl: string, isHeader: string -> bool, which: string -> string)
    returns (cur1: Cursor, done: bool, r: Outcome<()>)
    requires T.Valid() && CursorOk(cur, T.Env())
    requires 1 <= top.i <= |top.t| && fl == top.t[top.i - 1]
    modifies top, T.Cells()
    ensures CursorOk(cur1, T.Env())
    ensures done ==> (top.t, top.i, T.Env(), r) == Edited(old(top.t), old(top.i) - 1, T.m, cur, old(T.Env()), isHeader, which)
    ensures !done ==> (top.i == old(top.i) && |top.t| == |old(top.t)|
      && Edited(top.t, top.i, T.m, cur1, T.Env(), isHeader, which) == Edited(old(top.t), old(top.i) - 1, T.m, cur, old(T.Env()), isHeader, which))
  {
    ghost var t0, k := top.t, top.i - 1;
    var e;
    cur1, e := EditAt(T, cur, top.t, top.i - 1, fl, isHeader, which);
    match e {
      case Stop(o) =>
        return cur1, true, o;
      case Put(x) =>
        ghost var env1 := T.Env();
        Replace(top, T, x);
        assert top.t == t0[k := x] && top.i == k + 1 && T.Env() == env1;
    }
    done, r := false, Ok(());
  }

  /** `EditLine` on line `k` of `t`, stated as a step of `Edited`. */
  method EditAt(T: TermSelect, cur: Cursor, ghost t: seq<string>, ghost k: nat, fl: string,
                isHeader: string -> bool, which: string -> string)
    returns (cur1: Cursor, e: Edit)
    requires T.Valid() && CursorOk(cur, T.Env()) && k < |t| && fl == t[k]
    modifies T.Cells()
    ensures CursorOk(cur1, T.Env())
    ensures e.Stop? ==> Edited(t, k, T.m, cur, old(T.Env()), isHeader, which) == (t, k + 1, T.Env(), e.r)
    ensures e.Put? ==> Edited(t, k, T.m, cur, old(T.Env()), isHeader, which)
                       == Edited(t[k := e.line], k + 1, T.m, cur1, T.Env(), isHeader, which)
  {
    ghost var env := T.Env();
    cur1, e := EditLine(T, cur, fl, isHeader, which);
    EditedNext(t, k, T.m, cur, env, isHeader, which, cur1, T.Env(), e);
  }

  /** `ReadString` on the topology; the cells keep what they hold. */
  method Read(top: TopInMem, T: TermSelect) returns (line: string, eof: bool)
    modifies top
    ensures top.t == old(top.t)
    ensures old(top.i) >= |top.t| ==> eof && line == "" && top.i == 0
    ensures old(top.i) < |top.t| ==> !eof && line == top.t[old(top.i)] && top.i == old(top.i) + 1
    ensures T.Env() == old(T.Env())
  {
    line, eof := top.ReadString();
  }

  /** `ReplaceString` on the topology; the cells keep what they hold. */
  method Replace(top: TopInMem, T: TermSelect, x: string)
    requires 1 <= top.i <= |top.t|
    modifies top
    ensures top.i == old(top.i) && top.t == old(top.t)[old(top.i) - 1 := x]
    ensures T.Env() == old(T.Env())
  {
    top.ReplaceString(x);
  }

  lemma EditedEnd(t: seq<string>, k: nat, sel: map<string, Option<LineFn>>, cur: Cursor, env: map<Cell, CellVal>,
                  isHeader: string -> bool, which: string -> string)
    requires "nonskiplines" in sel && EnvOk(sel, env) && CursorOk(cur, env) && k >= |t|
    ensures Edited(t, k, sel, cur, env, isHeader, which) == (t, 0, env, Ok(()))
  {
  }

  /** One step of `Edited`. */
  lemma EditedNext(t: seq<string>, k: nat, sel: map<string, Option<LineFn>>, cur: Cursor, env: map<Cell, CellVal>,
                   isHeader: string -> bool, which: string -> string, cur1: Cursor, env1: map<Cell, CellVal>, e: Edit)
    requires "nonskiplines" in sel && EnvOk(sel, env) && CursorOk(cur, env) && k < |t|
    requires (cur1, env1, e) == LineStep(sel, cur, env, t[k], isHeader, which)
    ensures EnvOk(sel, env1) && CursorOk(cur1, env1)
    ensures e.Stop? ==> Edited(t, k, sel, cur, env, isHeader, which) == (t, k + 1, env1, e.r)
    ensures e.Put? ==> Edited(t, k, sel, cur, env, isHeader, which) == Edited(t[k := e.line], k + 1, sel, cur1, env1, isHeader, which)
  {
  }

  /** A line with no ";" goes to `PartStep` whole, with no comment. */
  lemma PlainLineStep(sel: map<string, Option<LineFn>>, cur: Cursor, env: map<Cell, CellVal>, fl: string,
                      isHeader: string -> bool, which: string -> string)
    requires "nonskiplines" in sel && EnvOk(sel, env) && CursorOk(cur, env) && ';' !in fl
    ensures LineStep(sel, cur, env, fl, isHeader, which) == PartStep(sel, cur, env, fl, "", isHeader, which)
  {
    FindAbsent(fl, ";");
    if |fl| > 0 {
      assert fl[..1][0] == fl[0];
    }
  }

  /** Every function set is nil or the do-nothing one. */
  predicate AllKeep(sel: map<string, Option<LineFn>>) {
    forall h :: h in sel ==> OrKeep(sel[h]) == Keep
  }

  /** With nothing but do-nothing functions and no comments, the walk
      leaves every line as it is, returns no error and rewinds the
      topology. */
  lemma {:induction false} EditedIdentity(t: seq<string>, k: nat, sel: map<string, Option<LineFn>>, cur: Cursor,
                                          env: map<Cell, CellVal>, isHeader: string -> bool, which: string -> string)
    requires "nonskiplines" in sel && EnvOk(sel, env) && AllKeep(sel) && cur.fn == Keep
    requires forall j :: k <= j < |t| ==> ';' !in t[j]
    ensures Edited(t, k, sel, cur, env, isHeader, which) == (t, 0, env, Ok(()))
    decreases |t| - k
  {
    if k < |t| {
      var (cur1, env1, e) := LineStep(sel, cur, env, t[k], isHeader, which);
      KeepLineStep(sel, cur, env, t[k], isHeader, which);
      EditedNext(t, k, sel, cur, env, isHeader, which, cur1, env1, e);
      assert t[k := t[k]] == t;
      EditedIdentity(t, k + 1, sel, cur1, env1, isHeader, which);
    }
  }

  /** With nothing but do-nothing functions, a line without comments is
      put back as it is and the cells keep what they hold. */
  lemma KeepLineStep(sel: map<string, Option<LineFn>>, cur: Cursor, env: map<Cell, CellVal>, fl: string,
                     isHeader: string -> bool, which: string -> string)
    requires "nonskiplines" in sel && EnvOk(sel, env) && AllKeep(sel) && cur.fn == Keep && ';' !in fl
    ensures var (cur1, env1, e) := LineStep(sel, cur, env, fl, isHeader, which);
            e == Put(fl) && env1 == env && cur1.fn == Keep
  {
    PlainLineStep(sel, cur, env, fl, isHeader, which);
    assert fl + "" == fl;
  }

  /** The walk changes no line before `k` and no line starting with ";". */
  lemma {:induction false} EditedKeeps(t: seq<string>, k: nat, sel: map<string, Option<LineFn>>, cur: Cursor,
                                       env: map<Cell, CellVal>, isHeader: string -> bool, which: string -> string, j: int)
    requires "nonskiplines" in sel && EnvOk(sel, env) && CursorOk(cur, env)
    requires 0 <= j < |t| && (j < k || HasPrefix(t[j], ";"))
    ensures Edited(t, k, sel, cur, env, isHeader, which).0[j] == t[j]
    decreases |t| - k
  {
    if k < |t| {
      var cur1, env1, e := EditedStep(t, k, sel, cur, env, isHeader, which);
      if e.Put? {
        var t1 := t[k := e.line];
        assert t1[j] == t[j] && (j < k + 1 || HasPrefix(t1[j], ";"));
        EditedKeeps(t1, k + 1, sel, cur1, env1, isHeader, which, j);
        assert Edited(t1, k + 1, sel, cur1, env1, isHeader, which).0[j] == t[j];
      }
    }
  }

  /** `EditedNext` at the line `LineStep` gives, which is put back as it
      is when it starts with ";". */
  lemma EditedStep(t: seq<string>, k: nat, sel: map<string, Option<LineFn>>, cur: Cursor, env: map<Cell, CellVal>,
                   isHeader: string -> bool, which: string -> string)
    returns (cur1: Cursor, env1: map<Cell, CellVal>, e: Edit)
    requires "nonskiplines" in sel && EnvOk(sel, env) && CursorOk(cur, env) && k < |t|
    ensures EnvOk(sel, env1) && CursorOk(cur1, env1)
    ensures e.Stop? ==> Edited(t, k, sel, cur, env, isHeader, which) == (t, k + 1, env1, e.r) && !e.r.Ok?
    ensures e.Put? ==> Edited(t, k, sel, cur, env, isHeader, which) == Edited(t[k := e.line], k + 1, sel, cur1, env1, isHeader, which)
    ensures e.Put? && HasPrefix(t[k], ";") ==> e.line == t[k]
  {
    cur1, env1, e := LineStep(sel, cur, env, t[k], isHeader, which).0, LineStep(sel, cur, env, t[k], isHeader, which).1,
                     LineStep(sel, cur, env, t[k], isHeader, which).2;
    EditedNext(t, k, sel, cur, env, isHeader, which, cur1, env1, e);
    if HasPrefix(t[k], ";") {
      CommentStep(sel, cur, env, t[k], isHeader, which);
    }
  }

  /** A line starting with ";" is put back as it is. */
  lemma CommentStep(sel: map<string, Option<LineFn>>, cur: Cursor, env: map<Cell, CellVal>, fl: string,
                    isHeader: string -> bool, which: string -> string)
    requires "nonskiplines" in sel && EnvOk(sel, env) && CursorOk(cur, env) && HasPrefix(fl, ";")
    ensures LineStep(sel, cur, env, fl, isHeader, which) == (cur, env, Put(fl))
  {
  }

  /** The walk returns an error exactly when it stops early: it then leaves
      the topology after the line that failed and that line and every later
      one unchanged; a walk that ends rewinds it. */
  lemma {:induction false} EditedStops(t: seq<string>, k: nat, sel: map<string, Option<LineFn>>, cur: Cursor,
                                       env: map<Cell, CellVal>, isHeader: string -> bool, which: string -> string)
    requires "nonskiplines" in sel && EnvOk(sel, env) && CursorOk(cur, env)
    ensures var r := Edited(t, k, sel, cur, env, isHeader, which);
      (r.3.Ok? <==> r.1 == 0) && (!r.3.Ok? ==> k < r.1 <= |t|)
    decreases |t| - k
  {
    if k < |t| {
      var cur1, env1, e := EditedStep(t, k, sel, cur, env, isHeader, which);
      if e.Put? {
        EditedStops(t[k := e.line], k + 1, sel, cur1, env1, isHeader, which);
      }
    }
  }

  /** After an early stop, the line that failed and every later one are
      as they were. */
  lemma {:induction false} EditedStopsKeep(t: seq<string>, k: nat, sel: map<string, Option<LineFn>>, cur: Cursor,
                                           env: map<Cell, CellVal>, isHeader: string -> bool, which: string -> string, j: int)
    requires "nonskiplines" in sel && EnvOk(sel, env) && CursorOk(cur, env)
    requires var r := Edited(t, k, sel, cur, env, isHeader, which); !r.3.Ok? && 0 <= j && r.1 - 1 <= j < |t|
    ensures Edited(t, k, sel, cur, env, isHeader, which).0[j] == t[j]
    decreases |t| - k, 1
  {
    var cur1, env1, e := EditedStep(t, k, sel, cur, env, isHeader, which);
    if e.Put? {
      EditedStopsKeepPut(t, k, sel, cur1, env1, isHeader, which, j, e.line);
    }
  }

  /** `EditedStopsKeep` after line `k` has been put back as `x`. */
  lemma {:induction false} EditedStopsKeepPut(t: seq<string>, k: nat, sel: map<string, Option<LineFn>>, cur1: Cursor,
                                              env1: map<Cell, CellVal>, isHeader: string -> bool, which: string -> string,
                                              j: int, x: string)
    requires "nonskiplines" in sel && EnvOk(sel, env1) && CursorOk(cur1, env1) && k < |t|
    requires var r := Edited(t[k := x], k + 1, sel, cur1, env1, isHeader, which); !r.3.Ok? && 0 <= j && r.1 - 1 <= j < |t|
    ensures Edited(t[k := x], k + 1, sel, cur1, env1, isHeader, which).0[j] == t[j]
    decreases |t| - k, 0
  {
    EditedStops(t[k := x], k + 1, sel, cur1, env1, isHeader, which);
    EditedStopsKeep(t[k := x], k + 1, sel, cur1, env1, isHeader, which, j);
  }

  // ---------------------------------------------------------------------
  // The TermSelect builders
  // ---------------------------------------------------------------------

  /** The functions of `SwitchAtomNumbersFunctions` for the plan `(ch,
      after)`: an `adder` for each bonded section, the number of leading
      atom fields being 1, 2, 3 and 4 for atoms, bonds, angles and
      dihedrals and all fields for exclusions, with constraints sharing the
      bonds one; `vsitesn` for the virtual sites; the do-nothing function
      for the rest. */
  method SwitchWith(ch: Change, after: int) returns (T: TermSelect)
    requires ChangeOk(ch)
    ensures fresh(T) && T.Valid()
    ensures T.m.Keys == Standard
    ensures T.m["atoms"] == Some(Renumber(ch, after, 1))
    ensures T.m["bonds"] == T.m["constraints"] == Some(Renumber(ch, after, 2))
    ensures T.m["angles"] == Some(Renumber(ch, after, 3))
    ensures T.m["dihedrals"] == Some(Renumber(ch, after, 4))
    ensures T.m["exclusions"] == Some(Renumber(ch, after, -1))
    ensures T.m["vsitesn"] == Some(RenumberSites(ch, after))
    ensures T.m["nonskiplines"] == T.m["default"] == Some(Keep)
  {
    T := new TermSelect();
    T.SetAll([]);
    T.Set("atoms", Some(Renumber(ch, after, 1)));
    T.Set("bonds", Some(Renumber(ch, after, 2)));
    T.Set("angles", Some(Renumber(ch, after, 3)));
    var b := T.Get("bonds");
    T.Set("constraints", b);
    T.Set("dihedrals", Some(Renumber(ch, after, 4)));
    T.Set("exclusions", Some(Renumber(ch, after, -1)));
    T.Set("vsitesn", Some(RenumberSites(ch, after)));
  }

  /** `SwitchAtomNumbersFunctions(tosub, replacement)`: it panics when the
      plan has a number of indices other than the number of replacements;
      the model also asks for a replacement when there are no indices, which
      `change` reads on every call. */
  method SwitchAtomNumbersFunctions(tosub: seq<int>, replacement: seq<int>) returns (T: TermSelect)
    requires ChangeOk(SwitchPlan(tosub, replacement).0)
    ensures fresh(T) && T.Valid()
    ensures var (ch, after) := SwitchPlan(tosub, replacement);
      T.m.Keys == Standard
      && T.m["atoms"] == Some(Renumber(ch, after, 1))
      && T.m["bonds"] == T.m["constraints"] == Some(Renumber(ch, after, 2))
      && T.m["angles"] == Some(Renumber(ch, after, 3))
      && T.m["dihedrals"] == Some(Renumber(ch, after, 4))
      && T.m["exclusions"] == Some(Renumber(ch, after, -1))
      && T.m["vsitesn"] == Some(RenumberSites(ch, after))
      && T.m["nonskiplines"] == T.m["default"] == Some(Keep)
  {
    var (ch, after) := SwitchPlan(tosub, replacement);
    T := SwitchWith(ch, after);
  }

  /** `ShiftAtomNumbersFunctions(after, toadd)`, with the plan that shifts
      every index from `after` on (see `ShiftPlan`). */
  method ShiftAtomNumbersFunctions(after: int, toadd: int) returns (T: TermSelect)
    ensures fresh(T) && T.Valid()
    ensures var (ch, a) := ShiftPlan(after, toadd);
      T.m.Keys == Standard
      && T.m["atoms"] == Some(Renumber(ch, a, 1))
      && T.m["bonds"] == T.m["constraints"] == Some(Renumber(ch, a, 2))
      && T.m["angles"] == Some(Renumber(ch, a, 3))
      && T.m["dihedrals"] == Some(Renumber(ch, a, 4))
      && T.m["exclusions"] == Some(Renumber(ch, a, -1))
      && T.m["vsitesn"] == Some(RenumberSites(ch, a))
      && T.m["nonskiplines"] == T.m["default"] == Some(Keep)
  {
    var (ch, a) := ShiftPlan(after, toadd);
    T := SwitchWith(ch, a);
  }

  /** What a shift does to an atom field: a number from `after` on moves by
      `toadd`, any other stays. */
  lemma ShiftMoves(after: int, toadd: int, i: int, v: int)
    ensures var (ch, a) := ShiftPlan(after, toadd);
      (FromAfter(a)(i, v) ==> ChangeAt(ch, v) == v + toadd) && (FromAfter(a)(i, v) <==> v >= after)
  {
  }

  /** `DeleteAtomsFunction(todel)`: the atoms and virtual-site lines whose
      first field is listed are emptied, everything else is left alone. */
  method DeleteAtomsFunction(todel: seq<int>) returns (T: TermSelect)
    ensures fresh(T) && T.Valid()
    ensures T.m.Keys == Standard
    ensures T.m["atoms"] == T.m["vsitesn"] == Some(DropAtoms(todel))
    ensures forall h :: h in T.m && h != "atoms" && h != "vsitesn" ==> T.m[h] == Some(Keep)
  {
    T := new TermSelect();
    T.SetAll([]);
    T.Set("atoms", Some(DropAtoms(todel)));
    T.Set("vsitesn", Some(DropAtoms(todel)));
  }

  /** The line `DelDuplicatedFunctions` starts from, one no topology is
      expected to hold. */
  const Sentinel: string := "2@@$)(/^*9HhL.Goは最高のプログラミング言語です"

  /** Setting headers all to one function: each header given gets it. */
  lemma {:induction false} SetManySame(m: map<string, Option<LineFn>>, hs: seq<string>, fs: seq<Option<LineFn>>,
                                       f: Option<LineFn>, k: string)
    requires |hs| <= |fs| && (forall i :: 0 <= i < |fs| ==> fs[i] == f) && k in hs
    ensures k in SetManyOf(m, hs, fs).0 && SetManyOf(m, hs, fs).0[k] == f
    decreases |hs|
  {
    var init := hs[..|hs| - 1];
    if k != hs[|hs| - 1] {
      assert hs == init + [hs[|hs| - 1]];
      SetManySame(m, init, fs, f, k);
    }
  }

  /** Setting every header, taken from `Headers()`, to one function `f`:
      afterwards every header holds `f`. */
  method SetEvery(T: TermSelect, f: LineFn)
    requires T.Valid() && FnOk(f)
    modifies T
    ensures T.Valid() && T.m.Keys == old(T.m.Keys)
    ensures forall k :: k in T.m ==> T.m[k] == Some(f)
  {
    var n := T.NTerms();
    var fns := seq(n, _ => Some(f));
    var h := T.Headers([]);
    assert multiset(h) == multiset(T.m.Keys);
    assert |h| == |T.m.Keys| by {
      assert |multiset(h)| == |h|;
      assert |multiset(T.m.Keys)| == |T.m.Keys|;
    }
    ghost var m0 := T.m;
    var r := T.SetMany(Some(h), fns);
    SetManyKeys(m0, h, fns);
    forall x | x in h
      ensures x in m0
    {
      assert x in multiset(h);
    }
    forall k | k in T.m
      ensures T.m[k] == Some(f)
    {
      assert k in multiset(h);
      SetManySame(m0, h, fns, Some(f), k);
    }
  }

  /** `DelDuplicatedFunctions(T)`: every header gets one shared function,
      whose cell (returned here so that it can be named) starts at
      `Sentinel`, emptying each line equal to the one it last let through. */
  method DelDuplicatedFunctions(T: TermSelect) returns (c: Cell)
    requires T.Valid()
    modifies T
    ensures fresh(c) && c.last == Sentinel && c.seen == []
    ensures T.Valid() && T.m.Keys == old(T.m.Keys)
    ensures forall k :: k in T.m ==> T.m[k] == Some(DropDuplicate(c))
  {
    c := new Cell(Sentinel);
    SetEvery(T, DropDuplicate(c));
  }

  /** `DelRepeatedFunctions(T)`: every header gets one shared function,
      whose cell starts with no line seen, emptying each line it has let
      through before. */
  method DelRepeatedFunctions(T: TermSelect) returns (c: Cell)
    requires T.Valid()
    modifies T
    ensures fresh(c) && c.seen == []
    ensures T.Valid() && T.m.Keys == old(T.m.Keys)
    ensures forall k :: k in T.m ==> T.m[k] == Some(DropRepeated(c))
  {
    c := new Cell("");
    SetEvery(T, DropRepeated(c));
  }
}
