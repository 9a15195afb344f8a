/** The atom selection, renumbering, tagging, capping and merging helpers
    of `handy.go`. A molecule whose atoms the Go code changes through
    `*Atom` pointers is an `array<Atom>` here, updated element by element;
    one only read is a `seq<Atom>`. */
module Handy {
  import opened Wrappers
  import opened Numbers
  import opened Atoms

  /** `isInInt` and `isInString`: whether `test` occurs in `container`
      (a nil container holds nothing). */
  method IsIn<T(==)>(container: seq<T>, test: T) returns (r: bool)
    ensures r == (test in container)
  {
    var i := 0;
    while i < |container|
      invariant 0 <= i <= |container| && test !in container[..i]
    {
      if test == container[i] {
        return true;
      }
      i := i + 1;
    }
    assert container[..i] == container;
    return false;
  }

  // ---------------------------------------------------------------------
  // Molecules2Atoms

  /** Whether `Molecules2Atoms` selects an atom: its residue is listed,
      and its chain is listed or no chain is. */
  predicate Picked(at: Atom, residues: seq<int>, chains: seq<string>) {
    at.molId in residues && (at.chain in chains || |chains| == 0)
  }

  /** The indices `Molecules2Atoms` returns: exactly the selected atoms,
      in increasing order. */
  function Selection(mol: seq<Atom>, residues: seq<int>, chains: seq<string>): (r: seq<int>)
    ensures forall x :: x in r <==> 0 <= x < |mol| && Picked(mol[x], residues, chains)
    ensures forall i, j :: 0 <= i < j < |r| ==> r[i] < r[j]
  {
    if mol == [] then []
    else
      var init := mol[..|mol| - 1];
      assert forall x :: 0 <= x < |init| ==> init[x] == mol[x];
      var s := Selection(init, residues, chains);
      forall i | 0 <= i < |s|
        ensures s[i] < |init|
      {
        assert s[i] in s;
      }
      if Picked(mol[|mol| - 1], residues, chains) then s + [|mol| - 1] else s
  }

  /** `Molecules2Atoms(mol, residues, chains)`. */
  method Molecules2Atoms(mol: seq<Atom>, residues: seq<int>, chains: seq<string>) returns (atlist: seq<int>)
    ensures atlist == Selection(mol, residues, chains)
  {
    atlist := [];
    var key := 0;
    while key < |mol|
      invariant 0 <= key <= |mol| && atlist == Selection(mol[..key], residues, chains)
    {
      var at := mol[key];
      var inResidues := IsIn(residues, at.molId);
      var inChains := IsIn(chains, at.chain);
      assert mol[..key + 1][..key] == mol[..key];
      if inResidues && (inChains || |chains| == 0) {
        atlist := atlist + [key];
      }
      key := key + 1;
    }
    assert mol[..key] == mol;
  }

  // ---------------------------------------------------------------------
  // FixNumbering

  /** The residue number of the atom before position `i`, -1 before the
      first. */
  function PrevMolId(atoms: seq<Atom>, i: nat): int
    requires i <= |atoms|
  {
    if i == 0 then -1 else atoms[i - 1].molId
  }

  /** How many times the residue number changes along `atoms`, counting
      the first atom as a change from -1. */
  function ResCount(atoms: seq<Atom>): (r: nat)
    ensures r <= |atoms|
  {
    if atoms == [] then 0
    else ResCount(atoms[..|atoms| - 1]) + (if atoms[|atoms| - 1].molId != PrevMolId(atoms, |atoms| - 1) then 1 else 0)
  }

  /** The atoms after `FixNumbering`. */
  function Renumbered(atoms: seq<Atom>): (r: seq<Atom>)
    ensures |r| == |atoms|
  {
    if atoms == [] then []
    else
      var n := |atoms| - 1;
      Renumbered(atoms[..n]) + [atoms[n].(id := n + 1, molId := ResCount(atoms))]
  }

  lemma {:induction false} RenumberedAtOne(atoms: seq<Atom>, i: nat)
    requires i < |atoms|
    ensures Renumbered(atoms)[i] == atoms[i].(id := i + 1, molId := ResCount(atoms[..i + 1]))
    decreases |atoms|
  {
    var n := |atoms| - 1;
    var init := atoms[..n];
    if i < n {
      RenumberedAtOne(init, i);
      assert init[..i + 1] == atoms[..i + 1] && init[i] == atoms[i];
    } else {
      assert atoms[..n + 1] == atoms;
    }
  }

  /** Atom `i` gets serial number `i+1` and, as residue number, the
      number of residues up to it. */
  lemma RenumberedAt(atoms: seq<Atom>)
    ensures forall i :: 0 <= i < |atoms| ==> Renumbered(atoms)[i] == atoms[i].(id := i + 1, molId := ResCount(atoms[..i + 1]))
  {
    forall i | 0 <= i < |atoms|
      ensures Renumbered(atoms)[i] == atoms[i].(id := i + 1, molId := ResCount(atoms[..i + 1]))
    {
      RenumberedAtOne(atoms, i);
    }
  }

  /** Nothing but the serial and residue numbers changes. */
  lemma RenumberedFields(atoms: seq<Atom>)
    ensures forall i :: 0 <= i < |atoms| ==>
      Renumbered(atoms)[i].id == i + 1 && Renumbered(atoms)[i].(id := atoms[i].id, molId := atoms[i].molId) == atoms[i]
  {
    RenumberedAt(atoms);
  }

  /** Residues are numbered 1, 2, ... in order of appearance: the number
      goes up by one exactly where the old residue number changes. */
  lemma {:induction false} RenumberedSteps(atoms: seq<Atom>)
    ensures |atoms| > 0 ==> Renumbered(atoms)[0].molId == (if atoms[0].molId != -1 then 1 else 0)
    ensures forall i :: 0 < i < |atoms| ==>
      Renumbered(atoms)[i].molId == Renumbered(atoms)[i - 1].molId + (if atoms[i].molId != atoms[i - 1].molId then 1 else 0)
  {
    RenumberedAt(atoms);
    if |atoms| > 0 {
      assert atoms[..1][..0] == [];
    }
    forall i | 0 < i < |atoms|
      ensures Renumbered(atoms)[i].molId == Renumbered(atoms)[i - 1].molId + (if atoms[i].molId != atoms[i - 1].molId then 1 else 0)
    {
      assert atoms[..i + 1][..i] == atoms[..i];
    }
  }

  lemma {:induction false} RenumberedMolIdAgain(atoms: seq<Atom>, i: nat)
    requires i < |atoms| && atoms[0].molId != -1
    ensures Renumbered(Renumbered(atoms))[i].molId == Renumbered(atoms)[i].molId
    decreases i
  {
    RenumberedSteps(atoms);
    RenumberedSteps(Renumbered(atoms));
    if i > 0 {
      RenumberedMolIdAgain(atoms, i - 1);
    }
  }

  /** Renumbering twice is renumbering once, unless the first atom's
      residue number is -1 (it is then numbered 0, and 1 the second
      time). */
  lemma {:induction false} RenumberedIdempotent(atoms: seq<Atom>)
    requires atoms == [] || atoms[0].molId != -1
    ensures Renumbered(Renumbered(atoms)) == Renumbered(atoms)
  {
    var r := Renumbered(atoms);
    RenumberedFields(atoms);
    RenumberedFields(r);
    forall i | 0 <= i < |atoms|
      ensures Renumbered(r)[i] == r[i]
    {
      RenumberedMolIdAgain(atoms, i);
    }
  }

  /** `FixNumbering(r)`. */
  method FixNumbering(r: array<Atom>)
    modifies r
    ensures r[..] == Renumbered(old(r[..]))
  {
    ghost var a := r[..];
    var resid := 0;
    var prevres := -1;
    var i := 0;
    while i < r.Length
      invariant 0 <= i <= r.Length && |a| == r.Length
      invariant r[i..] == a[i..] && r[..i] == Renumbered(a[..i])
      invariant resid == ResCount(a[..i]) && prevres == PrevMolId(a, i)
    {
      var at := r[i];
      assert at == a[i];
      if prevres != at.molId {
        prevres := at.molId;
        resid := resid + 1;
      }
      assert a[..i + 1][..i] == a[..i];
      r[i] := at.(id := i + 1, molId := resid);
      assert r[..i + 1] == r[..i] + [r[i]];
      i := i + 1;
    }
    assert a[..i] == a;
  }

  // ---------------------------------------------------------------------
  // makeNcap, makeCcap

  /** `makeNcap`: a C, O or CA atom of the residue before a kept stretch
      joins the stretch's first residue `resname` as its cap; the C
      becomes CTZ, the CA a hydrogen HCZ. */
  function NCap(at: Atom, resname: string): (r: Atom)
    ensures at.name !in ["C", "O", "CA"] ==> r == at
    ensures at.name in ["C", "O", "CA"] ==>
      r.molId == at.molId + 1 && r.molName == resname
      && r.name == (if at.name == "C" then "CTZ" else if at.name == "CA" then "HCZ" else "O")
      && r.symbol == (if at.name == "CA" then "H" else at.symbol)
    ensures r.(molId := at.molId, molName := at.molName, name := at.name, symbol := at.symbol) == at
  {
    if at.name !in ["C", "O", "CA"] then at
    else
      var a1 := at.(molId := at.molId + 1, molName := resname);
      var a2 := if a1.name == "C" then a1.(name := "CTZ") else a1;
      if a2.name == "CA" then a2.(name := "HCZ", symbol := "H") else a2
  }

  /** `makeCcap`: an N, H or CA atom of the residue after a kept stretch
      joins the stretch's last residue `resname` as its cap; the N
      becomes NTZ, the CA a hydrogen HNZ. */
  function CCap(at: Atom, resname: string): (r: Atom)
    ensures at.name !in ["N", "H", "CA"] ==> r == at
    ensures at.name in ["N", "H", "CA"] ==>
      r.molId == at.molId - 1 && r.molName == resname
      && r.name == (if at.name == "N" then "NTZ" else if at.name == "CA" then "HNZ" else "H")
      && r.symbol == (if at.name == "CA" then "H" else at.symbol)
    ensures r.(molId := at.molId, molName := at.molName, name := at.name, symbol := at.symbol) == at
  {
    if at.name !in ["N", "H", "CA"] then at
    else
      var a1 := at.(molId := at.molId - 1, molName := resname);
      var a2 := if a1.name == "N" then a1.(name := "NTZ") else a1;
      if a2.name == "CA" then a2.(name := "HNZ", symbol := "H") else a2
  }

  // ---------------------------------------------------------------------
  // CutBackRef

  predicate InResidue(at: Atom, molId: int, chain: string) {
    at.molId == molId && at.chain == chain
  }

  /** The residue name the first scan of `CutBackRef` finds for residue
      `nter` of `chain`, looking from atom `j` on: that of the first
      atom of the residue, or "" when there is none. */
  function FirstResName(atoms: seq<Atom>, j: nat, nter: int, chain: string): (r: string)
    requires j <= |atoms|
    ensures forall k ::
      (j <= k < |atoms| && InResidue(atoms[k], nter, chain) && forall k' :: j <= k' < k ==> !InResidue(atoms[k'], nter, chain))
      ==> r == atoms[k].molName
    ensures (forall k :: j <= k < |atoms| ==> !InResidue(atoms[k], nter, chain)) ==> r == ""
    decreases |atoms| - j
  {
    if j == |atoms| then ""
    else if InResidue(atoms[j], nter, chain) then atoms[j].molName
    else FirstResName(atoms, j + 1, nter, chain)
  }

  /** The first scan of `CutBackRef` for one list. */
  method FindResName(atoms: seq<Atom>, nter: int, chain: string) returns (nresname: string)
    ensures nresname == FirstResName(atoms, 0, nter, chain)
  {
    nresname := "";
    var j := 0;
    while j < |atoms|
      invariant 0 <= j <= |atoms|
      invariant FirstResName(atoms, j, nter, chain) == FirstResName(atoms, 0, nter, chain)
    {
      if atoms[j].molId == nter && atoms[j].chain == chain {
        nresname := atoms[j].molName;
        break;
      }
      j := j + 1;
    }
  }

  /** One atom of the list's chain as the capping scan leaves it: in
      residue `nter-1` it becomes the N cap, and if it is then in residue
      `cter+1` the C cap, named `cres`. */
  function CapOne(at: Atom, nter: int, cter: int, nres: string, cres: string): Atom {
    var a1 := if at.molId == nter - 1 then NCap(at, nres) else at;
    if a1.molId == cter + 1 then CCap(a1, cres) else a1
  }

  /** The second scan of `CutBackRef` for one list, from atom `j` on: in
      the list's chain, the name of residue `cter` is remembered as it
      goes by, atoms of residue `nter-1` become the N cap and then atoms
      that are in residue `cter+1` the C cap. */
  function CapFrom(atoms: seq<Atom>, j: nat, chain: string, nter: int, cter: int, nres: string, cres: string)
    : (r: seq<Atom>)
    requires j <= |atoms|
    ensures |r| == |atoms| && r[..j] == atoms[..j]
    decreases |atoms| - j
  {
    if j == |atoms| then atoms
    else
      var cur := atoms[j];
      if cur.chain != chain then CapFrom(atoms, j + 1, chain, nter, cter, nres, cres)
      else
        var cres' := if cur.molId == cter then cur.molName else cres;
        var a2 := CapOne(cur, nter, cter, nres, cres');
        CapFrom(atoms[j := a2], j + 1, chain, nter, cter, nres, cres')
  }

  /** The capping scan changes no atom of another chain, none outside
      residues `nter-1` and `cter+1`, and no atom's chain or serial
      number. */
  lemma {:induction false} CapFromFrame(atoms: seq<Atom>, j: nat, chain: string, nter: int, cter: int,
                                        nres: string, cres: string)
    requires j <= |atoms|
    ensures var r := CapFrom(atoms, j, chain, nter, cter, nres, cres);
      forall k :: j <= k < |atoms| && (atoms[k].chain != chain || (atoms[k].molId != nter - 1 && atoms[k].molId != cter + 1))
        ==> r[k] == atoms[k]
    ensures var r := CapFrom(atoms, j, chain, nter, cter, nres, cres);
      forall k :: 0 <= k < |atoms| ==> r[k].chain == atoms[k].chain && r[k].id == atoms[k].id
    decreases |atoms| - j
  {
    if j < |atoms| {
      var cur := atoms[j];
      if cur.chain != chain {
        CapFromFrame(atoms, j + 1, chain, nter, cter, nres, cres);
      } else {
        var cres' := if cur.molId == cter then cur.molName else cres;
        var a2 := CapOne(cur, nter, cter, nres, cres');
        CapFromFrame(atoms[j := a2], j + 1, chain, nter, cter, nres, cres');
      }
    }
  }

  /** The name of residue `cter` in `chain` once the atoms `s` have gone by:
      that of the last such atom among them, or `cres` when there is none. */
  function ResNameAfter(s: seq<Atom>, chain: string, cter: int, cres: string): string
    decreases |s|
  {
    if s == [] then cres
    else ResNameAfter(s[1..], chain, cter, if s[0].chain == chain && s[0].molId == cter then s[0].molName else cres)
  }

  /** Scanning `atoms[j..k+1]` is taking atom `j` into account, then
      scanning the rest, which `next` shares with `atoms`. */
  lemma ResNameFront(atoms: seq<Atom>, next: seq<Atom>, j: nat, k: nat, chain: string, cter: int, cres: string)
    requires j <= k < |atoms| == |next| && forall i :: j < i < |atoms| ==> next[i] == atoms[i]
    ensures var cres' := if atoms[j].chain == chain && atoms[j].molId == cter then atoms[j].molName else cres;
      ResNameAfter(atoms[j..k + 1], chain, cter, cres) == ResNameAfter(next[j + 1..k + 1], chain, cter, cres')
  {
    assert atoms[j..k + 1][1..] == next[j + 1..k + 1];
  }

  /** One step of the capping scan: atom `j` is capped in place (when in
      the chain), and the scan goes on from `j + 1`, which leaves atom `j`. */
  lemma CapFromStep(atoms: seq<Atom>, j: nat, chain: string, nter: int, cter: int, nres: string, cres: string)
    requires j < |atoms|
    ensures var cur := atoms[j];
      var cres' := if cur.chain == chain && cur.molId == cter then cur.molName else cres;
      var next := if cur.chain != chain then atoms else atoms[j := CapOne(cur, nter, cter, nres, cres')];
      var r := CapFrom(next, j + 1, chain, nter, cter, nres, cres');
      CapFrom(atoms, j, chain, nter, cter, nres, cres) == r && r[j] == next[j]
  {
    var cur := atoms[j];
    var cres' := if cur.chain == chain && cur.molId == cter then cur.molName else cres;
    var next := if cur.chain != chain then atoms else atoms[j := CapOne(cur, nter, cter, nres, cres')];
    var r := CapFrom(next, j + 1, chain, nter, cter, nres, cres');
    assert r[..j + 1][j] == next[..j + 1][j];
  }

  /** What the capping scan does to each atom of the list's chain: an atom
      of residue `nter-1` becomes the N cap, and an atom that is then in
      residue `cter+1` becomes the C cap, named after residue `cter` as far
      as the scan has seen it (up to and including that atom). */
  lemma {:induction false} CapFromCapped(atoms: seq<Atom>, j: nat, chain: string, nter: int, cter: int,
                                         nres: string, cres: string)
    requires j <= |atoms|
    ensures var r := CapFrom(atoms, j, chain, nter, cter, nres, cres);
      forall k :: j <= k < |atoms| && atoms[k].chain == chain ==>
        r[k] == CapOne(atoms[k], nter, cter, nres, ResNameAfter(atoms[j..k + 1], chain, cter, cres))
    decreases |atoms| - j
  {
    if j < |atoms| {
      var cur := atoms[j];
      var cres' := if cur.chain == chain && cur.molId == cter then cur.molName else cres;
      var next := if cur.chain != chain then atoms else atoms[j := CapOne(cur, nter, cter, nres, cres')];
      CapFromStep(atoms, j, chain, nter, cter, nres, cres);
      CapFromCapped(next, j + 1, chain, nter, cter, nres, cres');
      var r := CapFrom(next, j + 1, chain, nter, cter, nres, cres');
      forall k | j <= k < |atoms| && atoms[k].chain == chain
        ensures r[k] == CapOne(atoms[k], nter, cter, nres, ResNameAfter(atoms[j..k + 1], chain, cter, cres))
      {
        ResNameFront(atoms, next, j, k, chain, cter, cres);
      }
    }
  }

  /** The first loop of `CutBackRef` from list `k` on: the atoms as they
      are afterwards, and the outcome if it stops early (an empty list
      panics on `v[0]`; an N-terminal residue that cannot be found is an
      error). The lists before the failing one stay applied. */
  datatype Capping = Capping(atoms: seq<Atom>, failure: Option<Outcome<seq<int>>>)

  function CapLists(atoms: seq<Atom>, chains: seq<string>, list: seq<seq<int>>, k: nat): (r: Capping)
    requires |chains| == |list| && k <= |list|
    ensures |r.atoms| == |atoms|
    ensures r.failure.Some? ==> !r.failure.value.Ok?
    ensures r.failure.None? ==> forall l :: k <= l < |list| ==> list[l] != []
    ensures k < |list| && list[k] == [] ==> r == Capping(atoms, Some(Panic("index out of range")))
    ensures k < |list| && list[k] != [] && FirstResName(atoms, 0, list[k][0], chains[k]) == "" ==>
      r == Capping(atoms, Some(Err("list " + IntText(k) + " contains residue numbers out of boundaries")))
    decreases |list| - k
  {
    if k == |list| then Capping(atoms, None)
    else if list[k] == [] then Capping(atoms, Some(Panic("index out of range")))
    else
      var nter, cter := list[k][0], list[k][|list[k]| - 1];
      var nres := FirstResName(atoms, 0, nter, chains[k]);
      if nres == "" then Capping(atoms, Some(Err("list " + IntText(k) + " contains residue numbers out of boundaries")))
      else CapLists(CapFrom(atoms, 0, chains[k], nter, cter, nres, ""), chains, list, k + 1)
  }

  /** The atoms once lists `k` to `l - 1` are capped, each from the N-terminal
      residue name found in the atoms as the lists before it left them. */
  function CappedTo(atoms: seq<Atom>, chains: seq<string>, list: seq<seq<int>>, k: nat, l: nat): (r: seq<Atom>)
    requires |chains| == |list| && k <= l <= |list|
    requires forall m :: k <= m < l ==> list[m] != []
    ensures |r| == |atoms|
    decreases l - k
  {
    if k == l then atoms
    else
      var nter, cter := list[k][0], list[k][|list[k]| - 1];
      var capped := CapFrom(atoms, 0, chains[k], nter, cter, FirstResName(atoms, 0, nter, chains[k]), "");
      CappedTo(capped, chains, list, k + 1, l)
  }

  /** List `l` is where the capping loop stops with `f`: the lists before it
      are not empty, and it is empty itself (the `v[0]` panic) or its
      N-terminal residue is missing from the atoms as capped so far. */
  predicate StopsAt(atoms: seq<Atom>, chains: seq<string>, list: seq<seq<int>>, k: nat, l: nat, f: Outcome<seq<int>>)
    requires |chains| == |list| && k <= l < |list|
  {
    (forall m :: k <= m < l ==> list[m] != [])
    && ((list[l] == [] && f == Panic("index out of range"))
        || (list[l] != [] && FirstResName(CappedTo(atoms, chains, list, k, l), 0, list[l][0], chains[l]) == ""
            && f == Err("list " + IntText(l) + " contains residue numbers out of boundaries")))
  }

  /** The capping loop stops only at an empty list or at a list whose
      N-terminal residue cannot be found. */
  lemma {:induction false} CapListsFailure(atoms: seq<Atom>, chains: seq<string>, list: seq<seq<int>>, k: nat)
    requires |chains| == |list| && k <= |list|
    ensures var r := CapLists(atoms, chains, list, k);
      r.failure.Some? ==> exists l :: k <= l < |list| && StopsAt(atoms, chains, list, k, l, r.failure.value)
    decreases |list| - k
  {
    var r := CapLists(atoms, chains, list, k);
    if k < |list| && list[k] != [] {
      var nter, cter := list[k][0], list[k][|list[k]| - 1];
      var nres := FirstResName(atoms, 0, nter, chains[k]);
      if nres == "" {
        assert StopsAt(atoms, chains, list, k, k, r.failure.value);
      } else {
        var capped := CapFrom(atoms, 0, chains[k], nter, cter, nres, "");
        CapListsFailure(capped, chains, list, k + 1);
        if r.failure.Some? {
          var l :| k + 1 <= l < |list| && StopsAt(capped, chains, list, k + 1, l, r.failure.value);
          assert CappedTo(atoms, chains, list, k, l) == CappedTo(capped, chains, list, k + 1, l);
          assert StopsAt(atoms, chains, list, k, l, r.failure.value);
        }
      }
    } else if k < |list| {
      assert StopsAt(atoms, chains, list, k, k, r.failure.value);
    }
  }

  /** The kept atoms, list `k` on: with `perList`, the residues of each
      list taken from that list's own chain; without it, from any of
      `chains`, as the source does. */
  function KeptAtoms(atoms: seq<Atom>, chains: seq<string>, list: seq<seq<int>>, k: nat, perList: bool): (r: seq<int>)
    requires |chains| == |list| && k <= |list|
    ensures forall x :: x in r ==> 0 <= x < |atoms| && exists l :: k <= l < |list| && atoms[x].molId in list[l]
    decreases |list| - k
  {
    if k == |list| then []
    else Selection(atoms, list[k], if perList then [chains[k]] else chains) + KeptAtoms(atoms, chains, list, k + 1, perList)
  }

  /** The atoms and the outcome of a whole `CutBackRef` call. */
  function CutBackRefOf(atoms: seq<Atom>, chains: seq<string>, list: seq<seq<int>>, perList: bool)
    : (r: (seq<Atom>, Outcome<seq<int>>))
    ensures |r.0| == |atoms|
    ensures |chains| != |list| ==> r.0 == atoms && r.1.Err?
    ensures r.1.Ok? ==> |chains| == |list| && forall x :: x in r.1.value ==> 0 <= x < |atoms|
    ensures r.1.Ok? ==> forall l :: 0 <= l < |list| ==> list[l] != []
    ensures |chains| == |list| && list != [] && list[0] == [] ==> r == (atoms, Panic("index out of range"))
    ensures |chains| == |list| && list != [] && list[0] != [] && FirstResName(atoms, 0, list[0][0], chains[0]) == "" ==>
      r == (atoms, Err("list " + IntText(0) + " contains residue numbers out of boundaries"))
  {
    if |chains| != |list| then
      (atoms, Err("Mismatched chains (" + IntText(|chains|) + ") and list (" + IntText(|list|) + ") slices"))
    else
      var c := CapLists(atoms, chains, list, 0);
      if c.failure.Some? then (c.atoms, c.failure.value)
      else (c.atoms, Ok(KeptAtoms(c.atoms, chains, list, 0, perList)))
  }

  /** `CutBackRef` fails only on mismatched argument lengths, an empty list
      or a list whose N-terminal residue cannot be found. */
  lemma CutBackRefFailure(atoms: seq<Atom>, chains: seq<string>, list: seq<seq<int>>, perList: bool)
    ensures var r := CutBackRefOf(atoms, chains, list, perList);
      !r.1.Ok? ==> |chains| != |list| || exists l :: 0 <= l < |list| && StopsAt(atoms, chains, list, 0, l, r.1)
  {
    if |chains| == |list| {
      CapListsFailure(atoms, chains, list, 0);
    }
  }

  /** Every atom kept for list `k` on, taking each list in its own chain,
      is in one of those lists' residues and in that list's chain. */
  lemma {:induction false} KeptAtomsInLists(atoms: seq<Atom>, chains: seq<string>, list: seq<seq<int>>, k: nat)
    requires |chains| == |list| && k <= |list|
    ensures forall x :: x in KeptAtoms(atoms, chains, list, k, true) ==>
      0 <= x < |atoms| && exists l :: k <= l < |list| && atoms[x].chain == chains[l] && atoms[x].molId in list[l]
    decreases |list| - k
  {
    if k < |list| {
      KeptAtomsInLists(atoms, chains, list, k + 1);
    }
  }

  /** The atoms of the counterexample below: residue 1 of chain A, and
      residues 3 and 1 of chain B. */
  const CutAla := Atom("CA", 1, 0, "ALA", 1, "A", "C", 1.0, false, 0.0)
  const CutGly := Atom("CA", 2, 0, "GLY", 3, "B", "C", 1.0, false, 0.0)
  const CutSer := Atom("CA", 3, 0, "SER", 1, "B", "C", 1.0, false, 0.0)
  const CutExample := [CutAla, CutGly, CutSer]

  /** A capping scan finds nothing to cap when no atom of its chain is in
      residue `nter-1` or `cter+1`. */
  lemma CapFromNothing(atoms: seq<Atom>, chain: string, nter: int, cter: int, nres: string)
    requires forall k :: 0 <= k < |atoms| && atoms[k].chain == chain ==> atoms[k].molId != nter - 1 && atoms[k].molId != cter + 1
    ensures CapFrom(atoms, 0, chain, nter, cter, nres, "") == atoms
  {
    CapFromFrame(atoms, 0, chain, nter, cter, nres, "");
  }

  /** As written, cutting residue 1 of chain A and residue 3 of chain B
      also keeps residue 1 of chain B (atom 2), which neither list asks
      for; taking each list in its own chain does not keep it. */
  lemma CutBackRefOtherChain()
    ensures var r := CutBackRefOf(CutExample, ["A", "B"], [[1], [3]], false).1; r.Ok? && 2 in r.value
    ensures var r := CutBackRefOf(CutExample, ["A", "B"], [[1], [3]], true).1; r.Ok? && 2 !in r.value
  {
    CutAllChainsKeeps();
    CutOwnChainDrops();
  }

  /** The as-written half of `CutBackRefOtherChain`. */
  lemma CutAllChainsKeeps()
    ensures var r := CutBackRefOf(CutExample, ["A", "B"], [[1], [3]], false).1; r.Ok? && 2 in r.value
  {
    var atoms, chains, list := CutExample, ["A", "B"], [[1], [3]];
    CapListsExample();
    assert CutBackRefOf(atoms, chains, list, false).1 == Ok(KeptAtoms(atoms, chains, list, 0, false));
    assert KeptAtoms(atoms, chains, list, 0, false) == Selection(atoms, list[0], chains) + KeptAtoms(atoms, chains, list, 1, false);
    assert Picked(atoms[2], [1], chains);
    assert 2 in Selection(atoms, list[0], chains);
  }

  /** The per-list half of `CutBackRefOtherChain`. */
  lemma CutOwnChainDrops()
    ensures var r := CutBackRefOf(CutExample, ["A", "B"], [[1], [3]], true).1; r.Ok? && 2 !in r.value
  {
    var atoms, chains, list := CutExample, ["A", "B"], [[1], [3]];
    CapListsExample();
    assert CutBackRefOf(atoms, chains, list, true).1 == Ok(KeptAtoms(atoms, chains, list, 0, true));
    KeptAtomsInLists(atoms, chains, list, 0);
  }

  /** Neither list of the counterexample caps anything. */
  lemma CapListsExample()
    ensures CapLists(CutExample, ["A", "B"], [[1], [3]], 0) == Capping(CutExample, None)
  {
    var atoms := CutExample;
    assert FirstResName(atoms, 0, 1, "A") == "ALA";
    CapFromNothing(atoms, "A", 1, 1, "ALA");
    assert FirstResName(atoms, 1, 3, "B") == "GLY";
    assert FirstResName(atoms, 0, 3, "B") == "GLY";
    CapFromNothing(atoms, "B", 3, 3, "GLY");
  }

  /** The second scan of `CutBackRef` for one list. */
  method CapAtoms(r: array<Atom>, chain: string, nter: int, cter: int, nresname: string)
    modifies r
    ensures r[..] == CapFrom(old(r[..]), 0, chain, nter, cter, nresname, "")
  {
    var cresname := "";
    var j := 0;
    while j < r.Length
      invariant 0 <= j <= r.Length
      invariant CapFrom(r[..], j, chain, nter, cter, nresname, cresname) == CapFrom(old(r[..]), 0, chain, nter, cter, nresname, "")
    {
      var curr := r[j];
      if curr.chain != chain {
        j := j + 1;
        continue;
      }
      if curr.molId == cter {
        cresname := curr.molName;
      }
      if curr.molId == nter - 1 {
        curr := NCap(curr, nresname);
      }
      if curr.molId == cter + 1 {
        curr := CCap(curr, cresname);
      }
      r[j] := curr;
      j := j + 1;
    }
    assert CapFrom(r[..], j, chain, nter, cter, nresname, cresname) == r[..];
  }

  /** The first loop of `CutBackRef`, which caps list after list. */
  method CapAll(r: array<Atom>, chains: seq<string>, list: seq<seq<int>>) returns (failure: Option<Outcome<seq<int>>>)
    requires |chains| == |list|
    modifies r
    ensures CapLists(old(r[..]), chains, list, 0) == Capping(r[..], failure)
  {
    var k := 0;
    while k < |list|
      invariant 0 <= k <= |list|
      invariant CapLists(r[..], chains, list, k) == CapLists(old(r[..]), chains, list, 0)
    {
      var v := list[k];
      if v == [] {
        return Some(Panic("index out of range"));
      }
      var nter, cter := v[0], v[|v| - 1];
      var nresname := FindResName(r[..], nter, chains[k]);
      if nresname == "" {
        return Some(Err("list " + IntText(k) + " contains residue numbers out of boundaries"));
      }
      CapAtoms(r, chains[k], nter, cter, nresname);
      k := k + 1;
    }
    return None;
  }

  /** The second loop of `CutBackRef`, which gathers the kept atoms list
      after list, each in its own chain. */
  method KeepAll(atoms: seq<Atom>, chains: seq<string>, list: seq<seq<int>>) returns (ret: seq<int>)
    requires |chains| == |list|
    ensures ret == KeptAtoms(atoms, chains, list, 0, true)
  {
    ret := [];
    var i := 0;
    while i < |list|
      invariant 0 <= i <= |list|
      invariant ret + KeptAtoms(atoms, chains, list, i, true) == KeptAtoms(atoms, chains, list, 0, true)
    {
      var t := Molecules2Atoms(atoms, list[i], [chains[i]]);
      assert (ret + t) + KeptAtoms(atoms, chains, list, i + 1, true) == ret + (t + KeptAtoms(atoms, chains, list, i + 1, true));
      ret := ret + t;
      i := i + 1;
    }
    assert ret + [] == ret;
  }

  /** `CutBackRef(r, chains, list)`, with each list's residues taken from
      that list's own chain. */
  method CutBackRef(r: array<Atom>, chains: seq<string>, list: seq<seq<int>>) returns (res: Outcome<seq<int>>)
    modifies r
    ensures (r[..], res) == CutBackRefOf(old(r[..]), chains, list, true)
  {
    if |chains| != |list| {
      return Err("Mismatched chains (" + IntText(|chains|) + ") and list (" + IntText(|list|) + ") slices");
    }
    var failure := CapAll(r, chains, list);
    if failure.Some? {
      return failure.value;
    }
    var ret := KeepAll(r[..], chains, list);
    return Ok(ret);
  }

  // ---------------------------------------------------------------------
  // CutBetaRef and CutAlphaRef

  /** The two cuts: `CutBetaRef` keeps each listed residue from its beta
      carbon on, `CutAlphaRef` from its alpha carbon on. */
  datatype Cut = Beta | Alpha

  /** Whether a cut edits an atom: its residue and its chain are both
      listed (unlike `Picked`, an empty chain list edits nothing). */
  predicate Edited(at: Atom, chains: seq<string>, list: seq<int>) {
    at.molId in list && at.chain in chains
  }

  /** The backbone atoms a cut moves out of their residue. */
  function Dropped(c: Cut): seq<string> {
    match c
    case Beta => ["C", "H", "HA", "O", "N"]
    case Alpha => ["H", "O"]
  }

  /** One atom after a cut: the beta cut turns `CA` into the hydrogen `HB4`,
      the alpha cut turns `C` and `N` into the hydrogens `HA2` and `HA3`,
      and the other atoms of `Dropped(c)` get residue number -1. */
  function CutAtom(c: Cut, at: Atom, chains: seq<string>, list: seq<int>): (r: Atom)
    ensures !Edited(at, chains, list) ==> r == at
    ensures r.(name := at.name, symbol := at.symbol, molId := at.molId) == at
    ensures r.molId != at.molId ==> r.molId == -1 && at.name in Dropped(c)
    ensures r.name != at.name ==> r.symbol == "H" && r.molId == at.molId && at.name !in Dropped(c)
  {
    if !Edited(at, chains, list) then at
    else match c
      case Beta =>
        if at.name == "CA" then at.(name := "HB4", symbol := "H")
        else if at.name in Dropped(Beta) then at.(molId := -1)
        else at
      case Alpha =>
        if at.name == "C" then at.(name := "HA2", symbol := "H")
        else if at.name == "N" then at.(name := "HA3", symbol := "H")
        else if at.name in Dropped(Alpha) then at.(molId := -1)
        else at
  }

  /** The molecule after a cut, atom by atom; an empty residue or chain
      list leaves it as it was. */
  function Cutted(c: Cut, atoms: seq<Atom>, chains: seq<string>, list: seq<int>): (r: seq<Atom>)
    ensures |r| == |atoms|
    ensures chains == [] || list == [] ==> r == atoms
  {
    seq(|atoms|, i requires 0 <= i < |atoms| => CutAtom(c, atoms[i], chains, list))
  }

  /** The indices a cut returns: the atoms `Molecules2Atoms` would have
      picked before the cut, less the edited atoms of `Dropped(c)` (which
      stay picked only when residue -1 is itself listed). */
  lemma CutSelection(c: Cut, atoms: seq<Atom>, chains: seq<string>, list: seq<int>)
    ensures forall x :: x in Selection(Cutted(c, atoms, chains, list), list, chains) <==>
      0 <= x < |atoms| && Picked(atoms[x], list, chains)
      && !(Edited(atoms[x], chains, list) && atoms[x].name in Dropped(c) && -1 !in list)
  {
    var cut := Cutted(c, atoms, chains, list);
    forall x | 0 <= x < |atoms|
      ensures Picked(cut[x], list, chains) <==>
        Picked(atoms[x], list, chains) && !(Edited(atoms[x], chains, list) && atoms[x].name in Dropped(c) && -1 !in list)
    {
      assert cut[x] == CutAtom(c, atoms[x], chains, list);
    }
  }

  /** The loop both cuts share, editing `r` in place. */
  method CutAtoms(c: Cut, r: array<Atom>, chains: seq<string>, list: seq<int>)
    modifies r
    ensures r[..] == Cutted(c, old(r[..]), chains, list)
  {
    ghost var a := r[..];
    var i := 0;
    while i < r.Length
      invariant 0 <= i <= r.Length && |a| == r.Length
      invariant r[i..] == a[i..] && r[..i] == Cutted(c, a, chains, list)[..i]
    {
      var curr := r[i];
      assert curr == a[i];
      var inList := IsIn(list, curr.molId);
      var inChain := IsIn(chains, curr.chain);
      if inList && inChain {
        match c {
          case Beta =>
            if curr.name == "CA" {
              r[i] := curr.(name := "HB4", symbol := "H");
            } else {
              var backbone := IsIn(Dropped(Beta), curr.name);
              if backbone {
                r[i] := curr.(molId := -1);
              }
            }
          case Alpha =>
            if curr.name == "C" {
              r[i] := curr.(name := "HA2", symbol := "H");
            } else if curr.name == "N" {
              r[i] := curr.(name := "HA3", symbol := "H");
            } else {
              var backbone := IsIn(Dropped(Alpha), curr.name);
              if backbone {
                r[i] := curr.(molId := -1);
              }
            }
        }
      }
      i := i + 1;
    }
  }

  /** `CutBetaRef(r, chain, list)`: cuts `r` in place and returns the
      atoms of the listed residues. */
  method CutBetaRef(r: array<Atom>, chain: seq<string>, list: seq<int>) returns (newlist: seq<int>)
    modifies r
    ensures r[..] == Cutted(Beta, old(r[..]), chain, list)
    ensures newlist == Selection(r[..], list, chain)
  {
    CutAtoms(Beta, r, chain, list);
    newlist := Molecules2Atoms(r[..], list, chain);
  }

  /** `CutAlphaRef(r, chain, list)`, the same with the alpha cut. */
  method CutAlphaRef(r: array<Atom>, chain: seq<string>, list: seq<int>) returns (newlist: seq<int>)
    modifies r
    ensures r[..] == Cutted(Alpha, old(r[..]), chain, list)
    ensures newlist == Selection(r[..], list, chain)
  {
    CutAtoms(Alpha, r, chain, list);
    newlist := Molecules2Atoms(r[..], list, chain);
  }

  // ---------------------------------------------------------------------
  // TagAtomsByName

  /** The atoms after `TagAtomsByName(r, name, list)`. */
  function Tagged(atoms: seq<Atom>, name: string, list: seq<int>): (r: seq<Atom>)
    ensures |r| == |atoms|
  {
    seq(|atoms|, i requires 0 <= i < |atoms| => if i in list && atoms[i].name == name then atoms[i].(tag := 1) else atoms[i])
  }

  /** The count `TagAtomsByName` returns, atom by atom. */
  function TagCount(atoms: seq<Atom>, name: string, list: seq<int>): (n: nat)
    ensures n <= |atoms|
    ensures (forall i :: 0 <= i < |atoms| ==> atoms[i].name != name) ==> n == 0
  {
    if atoms == [] then 0
    else
      var n := |atoms| - 1;
      TagCount(atoms[..n], name, list) + (if n in list && atoms[n].name == name then 1 else 0)
  }

  /** The atoms `TagAtomsByName` tags: the listed ones with the name. */
  function TagSet(atoms: seq<Atom>, name: string, list: seq<int>): set<int> {
    set i | 0 <= i < |atoms| && i in list && atoms[i].name == name
  }

  /** The returned count is the number of atoms tagged. */
  lemma {:induction false} TagCountIsSize(atoms: seq<Atom>, name: string, list: seq<int>)
    ensures TagCount(atoms, name, list) == |TagSet(atoms, name, list)|
  {
    if atoms != [] {
      var n := |atoms| - 1;
      var init := atoms[..n];
      TagCountIsSize(init, name, list);
      if n in list && atoms[n].name == name {
        assert TagSet(atoms, name, list) == TagSet(init, name, list) + {n};
      } else {
        assert TagSet(atoms, name, list) == TagSet(init, name, list);
      }
    }
  }

  /** Exactly the atoms of `TagSet` carry tag 1 afterwards, unless they
      had it; nothing else changes. */
  lemma TaggedAtoms(atoms: seq<Atom>, name: string, list: seq<int>)
    ensures forall i :: 0 <= i < |atoms| ==>
      (i in TagSet(atoms, name, list) ==> Tagged(atoms, name, list)[i] == atoms[i].(tag := 1))
      && (i !in TagSet(atoms, name, list) ==> Tagged(atoms, name, list)[i] == atoms[i])
  {
  }

  /** `TagAtomsByName(r, name, list)`. */
  method TagAtomsByName(r: array<Atom>, name: string, list: seq<int>) returns (tag: int)
    modifies r
    ensures r[..] == Tagged(old(r[..]), name, list)
    ensures tag == TagCount(old(r[..]), name, list)
  {
    ghost var a := r[..];
    tag := 0;
    var i := 0;
    while i < r.Length
      invariant 0 <= i <= r.Length && |a| == r.Length
      invariant forall k :: i <= k < r.Length ==> r[k] == a[k]
      invariant forall k :: 0 <= k < i ==> r[k] == Tagged(a, name, list)[k]
      invariant tag == TagCount(a[..i], name, list)
    {
      var curr := r[i];
      var listed := IsIn(list, i);
      assert a[..i + 1][..i] == a[..i];
      if listed && curr.name == name {
        r[i] := curr.(tag := 1);
        tag := tag + 1;
      }
      i := i + 1;
    }
    assert a[..i] == a;
    assert r[..] == Tagged(a, name, list);
  }

  // ---------------------------------------------------------------------
  // MergeAtomers

  /** Charge and multiplicity, which molecules that are a `ReadRef` have. */
  datatype Ref = Ref(charge: int, multi: int)

  /** A molecule as `MergeAtomers` sees it: its atoms and, when it is a
      `ReadRef`, its charge and multiplicity. */
  datatype Mol = Mol(atoms: seq<Atom>, ref: Option<Ref>)

  /** The topology `MergeAtomers` builds: A's atoms then B's; when both are
      `ReadRef`s their charges add up and the multiplicities combine as
      unpaired electrons do, otherwise charge 0 and multiplicity 1. */
  function Merged(a: Mol, b: Mol): (r: Mol)
    ensures |r.atoms| == |a.atoms| + |b.atoms|
  {
    var rf := if a.ref.Some? && b.ref.Some? then Ref(a.ref.value.charge + b.ref.value.charge, a.ref.value.multi - 1 + b.ref.value.multi)
              else Ref(0, 1);
    Mol(a.atoms + b.atoms, Some(rf))
  }

  /** Merging molecules that all carry a charge and multiplicity does not
      depend on the grouping. */
  lemma MergedAssociative(a: Mol, b: Mol, c: Mol)
    requires a.ref.Some? && b.ref.Some? && c.ref.Some?
    ensures Merged(Merged(a, b), c) == Merged(a, Merged(b, c))
  {
    assert (a.atoms + b.atoms) + c.atoms == a.atoms + (b.atoms + c.atoms);
  }

  /** An empty neutral singlet is a unit of merging. */
  lemma MergedUnit(a: Mol)
    requires a.ref.Some?
    ensures Merged(Mol([], Some(Ref(0, 1))), a) == a && Merged(a, Mol([], Some(Ref(0, 1)))) == a
  {
    assert [] + a.atoms == a.atoms && a.atoms + [] == a.atoms;
  }

  /** `MergeAtomers(A, B)`, which fills the atom slice position by
      position. */
  method MergeAtomers(a: Mol, b: Mol) returns (r: Mol)
    ensures r == Merged(a, b)
  {
    var al := |a.atoms|;
    var l := al + |b.atoms|;
    var full := new Atom[l];
    var k := 0;
    while k < l
      invariant 0 <= k <= l && full[..k] == (a.atoms + b.atoms)[..k]
    {
      if k < al {
        full[k] := a.atoms[k];
      } else {
        full[k] := b.atoms[k - al];
      }
      k := k + 1;
    }
    var charge, multi := 0, 0;
    if a.ref.Some? && b.ref.Some? {
      charge := a.ref.value.charge + b.ref.value.charge;
      multi := a.ref.value.multi - 1 + b.ref.value.multi;
    } else {
      multi := 1;
    }
    assert full[..] == a.atoms + b.atoms;
    return Mol(full[..], Some(Ref(charge, multi)));
  }
}
