/** The Ramachandran index scanner of `ramacalc.go`: `RamaList` walks the
    atoms once and collects, for every residue inside the requested range,
    the five backbone atoms the phi and psi dihedrals need; and
    `RamaResidueFilter` keeps or drops entries by residue name. */
module Rama {
  import opened Wrappers
  import opened Text
  import opened Numbers
  import opened Atoms
  import opened Handy

  /** The atoms of one pair of Ramachandran angles: the carbonyl C of the
      previous residue, N, CA and C of the residue, the N of the next one;
      then the residue's number and name. */
  datatype RamaSet = RamaSet(cprev: int, n: int, ca: int, c: int, npost: int, molId: int, molName: string)

  /** The scanner's variables: the five indices (-1 while not found) and
      the chain of the last atom looked at. */
  datatype Cursor = Cursor(cprev: int, n: int, ca: int, c: int, npost: int, chainprev: string)

  /** The cursor `RamaList` starts from, with a chain name no atom has. */
  const Start := Cursor(-1, -1, -1, -1, -1, "NOTAVALIDCHAIN")

  /** The large upper bound that stands for "to the end of the chain". */
  const Unbounded := 999999999

  /** `resran` after `RamaList` looked at it: a range whose end is -1 is
      open-ended. */
  function FixRange(resran: seq<int>): (r: seq<int>)
    ensures |r| == |resran|
    ensures |resran| == 2 && resran[1] == -1 ==> r == [resran[0], Unbounded]
    ensures !(|resran| == 2 && resran[1] == -1) ==> r == resran
  {
    if |resran| == 2 && resran[1] == -1 then resran[1 := Unbounded] else resran
  }

  /** Whether an atom belongs to a chain `RamaList` looks at: one named in
      `chains`, a blank chain, or any chain when `chains` is empty. */
  predicate Selected(chains: string, at: Atom) {
    Contains(chains, at.chain) || at.chain == " " || chains == ""
  }

  /** Whether residue `r` is wanted: inside the two-element range
      `resran`, or listed in it. */
  predicate Wanted(resran: seq<int>, r: int) {
    (|resran| == 2 && resran[0] <= r <= resran[1]) || r in resran
  }

  /** Index `k` is unset, or an atom before `num` with the given name in
      the cursor's chain, one of the chains asked for. */
  predicate Slot(atoms: seq<Atom>, chains: string, num: nat, k: int, name: string, chain: string) {
    k == -1 || (0 <= k < num && k < |atoms| && atoms[k].name == name && atoms[k].chain == chain
                && Selected(chains, atoms[k]))
  }

  /** The cursor only holds atoms already looked at, each of the kind its
      slot is for, all in the cursor's chain. */
  predicate CursorOk(atoms: seq<Atom>, chains: string, num: nat, cur: Cursor) {
    Slot(atoms, chains, num, cur.cprev, "C", cur.chainprev) && Slot(atoms, chains, num, cur.n, "N", cur.chainprev)
    && Slot(atoms, chains, num, cur.ca, "CA", cur.chainprev) && Slot(atoms, chains, num, cur.c, "C", cur.chainprev)
    && Slot(atoms, chains, num, cur.npost, "N", cur.chainprev)
  }

  /** The five checks of the loop body on atom `num`, in their order: the
      first C of a chain is the previous carbonyl; N, C and CA are taken
      from a later residue than it; the next N from a later residue than
      CA. */
  function Gather(atoms: seq<Atom>, chains: string, num: nat, cur: Cursor): (r: Cursor)
    requires num < |atoms| && CursorOk(atoms, chains, num, cur) && atoms[num].chain == cur.chainprev
    requires Selected(chains, atoms[num])
    ensures CursorOk(atoms, chains, num + 1, r) && r.chainprev == cur.chainprev
  {
    var at := atoms[num];
    var cprev := if at.name == "C" && cur.cprev == -1 then num else cur.cprev;
    var n := if at.name == "N" && cprev != -1 && cur.n == -1 && at.molId > atoms[cprev].molId then num else cur.n;
    var c := if at.name == "C" && cprev != -1 && at.molId > atoms[cprev].molId then num else cur.c;
    var ca := if at.name == "CA" && cprev != -1 && at.molId > atoms[cprev].molId then num else cur.ca;
    var npost := if at.name == "N" && ca != -1 && at.molId > atoms[ca].molId then num else cur.npost;
    Cursor(cprev, n, ca, c, npost, cur.chainprev)
  }

  /** An entry `RamaList` may emit: five backbone atoms of the named kinds,
      all in one chain, the previous carbonyl and the next N in the
      residues just before and after a wanted residue, whose name is its
      CA's. */
  predicate WellFormed(atoms: seq<Atom>, chains: string, resran: seq<int>, rs: RamaSet) {
    0 <= rs.cprev < |atoms| && 0 <= rs.n < |atoms| && 0 <= rs.ca < |atoms| && 0 <= rs.c < |atoms|
    && 0 <= rs.npost < |atoms|
    && atoms[rs.cprev].name == "C" && atoms[rs.n].name == "N" && atoms[rs.ca].name == "CA"
    && atoms[rs.c].name == "C" && atoms[rs.npost].name == "N"
    && atoms[rs.n].chain == atoms[rs.cprev].chain && atoms[rs.ca].chain == atoms[rs.cprev].chain
    && atoms[rs.c].chain == atoms[rs.cprev].chain && atoms[rs.npost].chain == atoms[rs.cprev].chain
    && atoms[rs.cprev].molId == rs.molId - 1 && atoms[rs.n].molId == rs.molId
    && atoms[rs.ca].molId == rs.molId && atoms[rs.c].molId == rs.molId
    && atoms[rs.npost].molId == rs.molId + 1
    && Selected(chains, atoms[rs.cprev]) && rs.molName == atoms[rs.ca].molName && Wanted(resran, rs.molId)
  }

  predicate AllWellFormed(atoms: seq<Atom>, chains: string, resran: seq<int>, list: seq<RamaSet>) {
    forall i :: 0 <= i < |list| ==> WellFormed(atoms, chains, resran, list[i])
  }

  /** The error text for a residue whose backbone atoms are not in
      consecutive residues. */
  function BackboneError(r1: int, r2: int, r2a: int, r2b: int, r3: int): string {
    "Incorrect backbone Cprev: " + IntText(r1) + " N-1: " + IntText(r2 - 1) + " CA: " + IntText(r2a)
    + " C: " + IntText(r2b) + " Npost-1: " + IntText(r3 - 1)
  }

  /** The search state once atom `at` is looked at: an atom of another
      chain than the last one starts the search afresh. */
  function Reset(cur: Cursor, chain: string): (r: Cursor)
    ensures r.chainprev == chain
    ensures chain == cur.chainprev ==> r == cur
    ensures chain != cur.chainprev ==> r.cprev == r.n == r.ca == r.c == r.npost == -1
  {
    if chain != cur.chainprev then Cursor(-1, -1, -1, -1, -1, chain) else cur
  }

  /** What happens once the five checks have run on atom `num`: when all
      five atoms are found, a wanted residue is checked and emitted, and
      the search moves on by one residue. */
  function Emit(atoms: seq<Atom>, chains: string, num: nat, resran: seq<int>, g: Cursor, list: seq<RamaSet>)
    : (r: Outcome<(Cursor, seq<RamaSet>)>)
    requires num < |atoms| && CursorOk(atoms, chains, num + 1, g)
    ensures r.Ok? ==> CursorOk(atoms, chains, num + 1, r.value.0)
    ensures r.Ok? ==> |r.value.1| >= |list| && r.value.1[..|list|] == list
    ensures r.Ok? && AllWellFormed(atoms, chains, resran, list) ==> AllWellFormed(atoms, chains, resran, r.value.1)
    ensures !r.Panic?
  {
    if g.cprev != -1 && g.ca != -1 && g.n != -1 && g.c != -1 && g.npost != -1 then
      var r1 := atoms[g.cprev].molId;
      var r2 := atoms[g.n].molId;
      var r2a := atoms[g.ca].molId;
      var r2b := atoms[g.c].molId;
      var r3 := atoms[g.npost].molId;
      var next := Cursor(g.c, g.npost, -1, -1, -1, g.chainprev);
      if Wanted(resran, r2) then
        if r1 != r2 - 1 || r2 != r2a || r2a != r2b || r2b != r3 - 1 then Err(BackboneError(r1, r2, r2a, r2b, r3))
        else Ok((next, list + [RamaSet(g.cprev, g.n, g.ca, g.c, g.npost, r2, atoms[g.ca].molName)]))
      else Ok((next, list))
    else Ok((g, list))
  }

  /** The five backbone atoms are all found. */
  predicate Complete(g: Cursor) {
    g.cprev != -1 && g.ca != -1 && g.n != -1 && g.c != -1 && g.npost != -1
  }

  /** The residue numbers of a complete backbone run Cprev, then N = CA = C
      one higher, then Npost one higher again. */
  predicate Consecutive(atoms: seq<Atom>, g: Cursor)
    requires 0 <= g.cprev < |atoms| && 0 <= g.n < |atoms| && 0 <= g.ca < |atoms| && 0 <= g.c < |atoms|
    requires 0 <= g.npost < |atoms|
  {
    var r2 := atoms[g.n].molId;
    atoms[g.cprev].molId == r2 - 1 && atoms[g.ca].molId == r2 && atoms[g.c].molId == r2
    && atoms[g.npost].molId == r2 + 1
  }

  /** The three outcomes of `Emit`. An incomplete backbone leaves cursor and
      list alone. A complete one fails exactly when its residue is wanted and
      not consecutively numbered. Otherwise the search moves on by one
      residue (the C becomes the previous carbonyl, the next N the N), and a
      wanted residue's five atoms, number and CA residue name are appended. */
  lemma EmitOutcomes(atoms: seq<Atom>, chains: string, num: nat, resran: seq<int>, g: Cursor, list: seq<RamaSet>)
    requires num < |atoms| && CursorOk(atoms, chains, num + 1, g)
    ensures !Complete(g) ==> Emit(atoms, chains, num, resran, g, list) == Ok((g, list))
    ensures Complete(g) ==>
      var r := Emit(atoms, chains, num, resran, g, list);
      var wanted := Wanted(resran, atoms[g.n].molId);
      (r.Err? <==> wanted && !Consecutive(atoms, g))
      && (r.Err? ==> r.msg == BackboneError(atoms[g.cprev].molId, atoms[g.n].molId, atoms[g.ca].molId,
                                           atoms[g.c].molId, atoms[g.npost].molId))
      && (r.Ok? ==> r.value.0 == Cursor(g.c, g.npost, -1, -1, -1, g.chainprev))
      && (r.Ok? && !wanted ==> r.value.1 == list)
      && (r.Ok? && wanted ==>
            r.value.1 == list + [RamaSet(g.cprev, g.n, g.ca, g.c, g.npost, atoms[g.n].molId, atoms[g.ca].molName)])
  {
  }

  /** The cursor and the list after the loop body has looked at atom
      `num`; atoms of chains not asked for are passed over. */
  function RamaStep(atoms: seq<Atom>, num: nat, chains: string, resran: seq<int>, cur: Cursor,
                    list: seq<RamaSet>): (r: Outcome<(Cursor, seq<RamaSet>)>)
    requires num < |atoms| && CursorOk(atoms, chains, num, cur)
    ensures r.Ok? ==> CursorOk(atoms, chains, num + 1, r.value.0)
    ensures r.Ok? ==> |r.value.1| >= |list| && r.value.1[..|list|] == list
    ensures r.Ok? && AllWellFormed(atoms, chains, resran, list) ==> AllWellFormed(atoms, chains, resran, r.value.1)
    ensures !r.Panic?
  {
    if !Selected(chains, atoms[num]) then Ok((cur, list))
    else Emit(atoms, chains, num, resran, Gather(atoms, chains, num, Reset(cur, atoms[num].chain)), list)
  }

  /** The loop of `RamaList` from atom `num` on. */
  function RamaScan(atoms: seq<Atom>, num: nat, chains: string, resran: seq<int>, cur: Cursor,
                    list: seq<RamaSet>): (r: Outcome<seq<RamaSet>>)
    requires num <= |atoms| && CursorOk(atoms, chains, num, cur)
    ensures r.Ok? ==> |r.value| >= |list| && r.value[..|list|] == list
    ensures r.Ok? && AllWellFormed(atoms, chains, resran, list) ==> AllWellFormed(atoms, chains, resran, r.value)
    ensures !r.Panic?
    decreases |atoms| - num
  {
    if num == |atoms| then Ok(list)
    else match RamaStep(atoms, num, chains, resran, cur, list)
      case Ok((c, l)) => RamaScan(atoms, num + 1, chains, resran, c, l)
      case Err(e) => Err(e)
      case Panic(e) => Panic(e)
  }

  /** `RamaList(M, chains, resran)`, `M` being `None` for a nil molecule.
      The range end -1 is rewritten in the caller's `resran` before
      anything else. */
  method RamaList(m: Option<seq<Atom>>, chains: string, resran: array<int>) returns (r: Outcome<seq<RamaSet>>)
    modifies resran
    ensures resran[..] == FixRange(old(resran[..]))
    ensures m.None? ==> r == Err("Nil data given")
    ensures m.Some? ==> r == RamaScan(m.value, 0, chains, resran[..], Start, [])
  {
    if resran.Length == 2 {
      if resran[1] == -1 {
        resran[1] := Unbounded;
      }
    }
    if m.None? {
      return Err("Nil data given");
    }
    r := ScanAll(m.value, chains, resran[..]);
  }

  /** The loop of `RamaList` over all atoms. */
  method ScanAll(atoms: seq<Atom>, chains: string, resran: seq<int>) returns (r: Outcome<seq<RamaSet>>)
    ensures r == RamaScan(atoms, 0, chains, resran, Start, [])
  {
    var list: seq<RamaSet> := [];
    var cur := Start;
    var num := 0;
    while num < |atoms|
      invariant 0 <= num <= |atoms| && CursorOk(atoms, chains, num, cur)
      invariant RamaScan(atoms, num, chains, resran, cur, list) == RamaScan(atoms, 0, chains, resran, Start, [])
      decreases |atoms| - num
    {
      var step := ScanAtom(atoms, num, chains, resran, cur, list);
      if step.Err? {
        return Err(step.msg);
      }
      cur, list := step.value.0, step.value.1;
      num := num + 1;
    }
    return Ok(list);
  }

  /** The loop body of `RamaList` on atom `num`. */
  method ScanAtom(atoms: seq<Atom>, num: nat, chains: string, resran: seq<int>, cur: Cursor, list: seq<RamaSet>)
    returns (r: Outcome<(Cursor, seq<RamaSet>)>)
    requires num < |atoms| && CursorOk(atoms, chains, num, cur)
    ensures r == RamaStep(atoms, num, chains, resran, cur, list)
  {
    var at := atoms[num];
    if !(Contains(chains, at.chain) || at.chain == " " || chains == "") {
      return Ok((cur, list));
    }
    var g := FindBackbone(atoms, chains, num, cur);
    r := EmitBackbone(atoms, chains, num, resran, g, list);
  }

  /** The emission half of the loop body, with the five indices as
      variables. */
  method EmitBackbone(atoms: seq<Atom>, chains: string, num: nat, resran: seq<int>, g: Cursor, list: seq<RamaSet>)
    returns (r: Outcome<(Cursor, seq<RamaSet>)>)
    requires num < |atoms| && CursorOk(atoms, chains, num + 1, g)
    ensures r == Emit(atoms, chains, num, resran, g, list)
  {
    var cprev, n, ca, c, npost := g.cprev, g.n, g.ca, g.c, g.npost;
    var out := list;
    if cprev != -1 && ca != -1 && n != -1 && c != -1 && npost != -1 {
      var r1 := atoms[cprev].molId;
      var r2 := atoms[n].molId;
      var r2a := atoms[ca].molId;
      var r2b := atoms[c].molId;
      var r3 := atoms[npost].molId;
      var listed := IsIn(resran, r2);
      if (|resran| == 2 && (r2 >= resran[0] && r2 <= resran[1])) || listed {
        if r1 != r2 - 1 || r2 != r2a || r2a != r2b || r2b != r3 - 1 {
          return Err(BackboneError(r1, r2, r2a, r2b, r3));
        }
        out := out + [RamaSet(cprev, n, ca, c, npost, r2, atoms[ca].molName)];
      }
      n := npost;
      ca := -1;
      cprev := c;
      c := -1;
      npost := -1;
    }
    return Ok((Cursor(cprev, n, ca, c, npost, g.chainprev), out));
  }
  /** The chain check and the five index checks of the loop body. */
  method FindBackbone(atoms: seq<Atom>, chains: string, num: nat, cur: Cursor) returns (g: Cursor)
    requires num < |atoms| && CursorOk(atoms, chains, num, cur) && Selected(chains, atoms[num])
    ensures g == Gather(atoms, chains, num, Reset(cur, atoms[num].chain))
  {
    var at := atoms[num];
    var cprev, n, ca, c, npost, chainprev := cur.cprev, cur.n, cur.ca, cur.c, cur.npost, cur.chainprev;
    if at.chain != chainprev {
      chainprev := at.chain;
      c, n, ca, cprev, npost := -1, -1, -1, -1, -1;
    }
    if at.name == "C" && cprev == -1 {
      cprev := num;
    }
    if at.name == "N" && cprev != -1 && n == -1 && at.molId > atoms[cprev].molId {
      n := num;
    }
    if at.name == "C" && cprev != -1 && at.molId > atoms[cprev].molId {
      c := num;
    }
    if at.name == "CA" && cprev != -1 && at.molId > atoms[cprev].molId {
      ca := num;
    }
    if at.name == "N" && ca != -1 && at.molId > atoms[ca].molId {
      npost := num;
    }
    return Cursor(cprev, n, ca, c, npost, chainprev);
  }

  /** Whether `RamaResidueFilter` keeps an entry: its residue name is in
      `filter` exactly when `present` asks for it. */
  predicate Keeps(filter: seq<string>, present: bool, d: RamaSet) {
    (d.molName in filter) == present
  }

  /** The entries `RamaResidueFilter` keeps, in their order. */
  function Kept(ds: seq<RamaSet>, filter: seq<string>, present: bool): (r: seq<RamaSet>)
    ensures |r| <= |ds|
    ensures forall x :: x in r ==> x in ds && Keeps(filter, present, x)
  {
    if ds == [] then []
    else
      var init := Kept(ds[..|ds| - 1], filter, present);
      var last := ds[|ds| - 1];
      if Keeps(filter, present, last) then init + [last] else init
  }

  /** The index slice `RamaResidueFilter` returns: where each entry went in
      the kept list, or -1. */
  function FilterIndex(ds: seq<RamaSet>, filter: seq<string>, present: bool): (r: seq<int>)
    ensures |r| == |ds|
  {
    if ds == [] then []
    else
      var init := ds[..|ds| - 1];
      FilterIndex(init, filter, present)
        + [if Keeps(filter, present, ds[|ds| - 1]) then |Kept(init, filter, present)| else -1]
  }

  /** The index slice points every kept entry at its place in the kept
      list and marks every dropped one with -1. */
  lemma {:induction false} FilterIndexKept(ds: seq<RamaSet>, filter: seq<string>, present: bool)
    ensures forall k :: 0 <= k < |ds| ==>
      (FilterIndex(ds, filter, present)[k] == -1 <==> !Keeps(filter, present, ds[k]))
    ensures forall k :: 0 <= k < |ds| && FilterIndex(ds, filter, present)[k] != -1 ==>
      0 <= FilterIndex(ds, filter, present)[k] < |Kept(ds, filter, present)|
      && Kept(ds, filter, present)[FilterIndex(ds, filter, present)[k]] == ds[k]
  {
    if ds != [] {
      var init := ds[..|ds| - 1];
      FilterIndexKept(init, filter, present);
      var ix, kept := FilterIndex(ds, filter, present), Kept(ds, filter, present);
      var ixi, ki := FilterIndex(init, filter, present), Kept(init, filter, present);
      assert ix == ixi + [ix[|ds| - 1]];
      assert kept[..|ki|] == ki;
      forall k | 0 <= k < |ds|
        ensures (ix[k] == -1 <==> !Keeps(filter, present, ds[k]))
        ensures ix[k] != -1 ==> 0 <= ix[k] < |kept| && kept[ix[k]] == ds[k]
      {
        if k < |init| {
          assert ix[k] == ixi[k] && ds[k] == init[k];
        }
      }
    }
  }

  /** Kept entries keep their order: the later of two kept entries has the
      larger index. */
  lemma {:induction false} FilterIndexOrdered(ds: seq<RamaSet>, filter: seq<string>, present: bool)
    ensures forall k1, k2 ::
      (0 <= k1 < k2 < |ds| && FilterIndex(ds, filter, present)[k1] != -1 && FilterIndex(ds, filter, present)[k2] != -1)
      ==> FilterIndex(ds, filter, present)[k1] < FilterIndex(ds, filter, present)[k2]
  {
    if ds != [] {
      var init := ds[..|ds| - 1];
      FilterIndexOrdered(init, filter, present);
      FilterIndexKept(init, filter, present);
      var ix, ixi := FilterIndex(ds, filter, present), FilterIndex(init, filter, present);
      assert ix == ixi + [ix[|ds| - 1]];
    }
  }

  /** Some entry of `ix` is `j`. */
  predicate Hits(ix: seq<int>, j: int) {
    exists k :: 0 <= k < |ix| && ix[k] == j
  }

  /** Every place of the kept list is the index of some input entry. */
  lemma {:induction false} KeptCovered(ds: seq<RamaSet>, filter: seq<string>, present: bool)
    ensures forall j :: 0 <= j < |Kept(ds, filter, present)| ==> Hits(FilterIndex(ds, filter, present), j)
  {
    if ds != [] {
      var init := ds[..|ds| - 1];
      KeptCovered(init, filter, present);
      var ix, ixi := FilterIndex(ds, filter, present), FilterIndex(init, filter, present);
      assert ix == ixi + [ix[|ds| - 1]];
      forall j | 0 <= j < |Kept(ds, filter, present)|
        ensures Hits(ix, j)
      {
        if j < |Kept(init, filter, present)| {
          assert Hits(ixi, j);
          var k :| 0 <= k < |ixi| && ixi[k] == j;
          assert ix[k] == j;
        } else {
          assert ix[|ds| - 1] == j;
        }
      }
    }
  }

  /** `RamaResidueFilter(dihedrals, filterdata, shouldBePresent)`: the
      kept entries and a fresh index slice of the input's length. */
  method RamaResidueFilter(dihedrals: seq<RamaSet>, filterdata: seq<string>, shouldBePresent: bool)
    returns (retList: seq<RamaSet>, index: array<int>)
    ensures fresh(index)
    ensures retList == Kept(dihedrals, filterdata, shouldBePresent)
    ensures index[..] == FilterIndex(dihedrals, filterdata, shouldBePresent)
  {
    retList := [];
    index := new int[|dihedrals|];
    var added := 0;
    var key := 0;
    while key < |dihedrals|
      invariant 0 <= key <= |dihedrals| && added == |retList|
      invariant retList == Kept(dihedrals[..key], filterdata, shouldBePresent)
      invariant index[..key] == FilterIndex(dihedrals[..key], filterdata, shouldBePresent)
    {
      var val := dihedrals[key];
      var isPresent := IsIn(filterdata, val.molName);
      assert dihedrals[..key + 1][..key] == dihedrals[..key];
      if isPresent == shouldBePresent {
        retList := retList + [val];
        index[key] := added;
        added := added + 1;
      } else {
        index[key] := -1;
      }
      assert index[..key + 1] == index[..key] + [index[key]];
      key := key + 1;
    }
    assert dihedrals[..key] == dihedrals;
    assert index[..] == index[..key];
  }
}
