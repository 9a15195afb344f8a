/** The text header of a DDCMD trajectory (`ddc/ddc.go`): the header object
    `{ key = value; ... }` is cut out of the text and split into a
    dictionary, the dictionary is read into the header record, the field
    types are mapped to binary formats, plus the small text helpers the
    reader uses. */
module Ddc {
  import opened Wrappers
  import opened Text
  import opened Numbers

  // ---------------------------------------------------------------------
  // Helpers: zfill, isallspaces, parseNFloats, parseNInts
  // ---------------------------------------------------------------------

  /** Putting `k` ASCII zeros in front of a text adds `k` bytes. */
  lemma {:induction false} ZerosLength(k: nat, s: string)
    ensures Utf8Len(Repeat('0', k) + s) == k + Utf8Len(s)
  {
    if k > 0 {
      ZerosLength(k - 1, s);
      var x := Repeat('0', k) + s;
      assert x[0] == '0' && x[1..] == Repeat('0', k - 1) + s;
      assert Utf8Len(x) == 1 + Utf8Len(x[1..]);
    } else {
      assert Repeat('0', k) + s == s;
    }
  }

  /** One more zero in front. */
  lemma ZeroMore(k: nat, s: string)
    ensures "0" + (Repeat('0', k) + s) == Repeat('0', k + 1) + s
  {
    assert Repeat('0', k + 1) == "0" + Repeat('0', k);
  }

  /** `zfill(target, tofill)`: zeros are put in front while the byte length
      is at most `target`, so a shorter text comes out `target + 1` bytes
      long, one more than its documentation promises. */
  method ZFill(target: int, tofill: string) returns (r: string)
    ensures |r| >= |tofill| && r == Repeat('0', |r| - |tofill|) + tofill
    ensures Utf8Len(r) == if Utf8Len(tofill) <= target then target + 1 else Utf8Len(tofill)
  {
    r := tofill;
    var l := Utf8Len(tofill);
    ghost var k := 0;
    assert r == Repeat('0', 0) + tofill;
    while l <= target
      invariant r == Repeat('0', k) + tofill && l == k + Utf8Len(tofill)
      invariant k == 0 || l <= target + 1
      decreases target - l
    {
      ZeroMore(k, tofill);
      r := "0" + r;
      l, k := l + 1, k + 1;
    }
    ZerosLength(k, tofill);
  }

  /** `zfill` as documented: zeros in front until the text is `target` bytes
      long. */
  method ZFillTo(target: int, tofill: string) returns (r: string)
    ensures |r| >= |tofill| && r == Repeat('0', |r| - |tofill|) + tofill
    ensures Utf8Len(r) == if Utf8Len(tofill) < target then target else Utf8Len(tofill)
  {
    r := tofill;
    var l := Utf8Len(tofill);
    ghost var k := 0;
    assert r == Repeat('0', 0) + tofill;
    while l < target
      invariant r == Repeat('0', k) + tofill && l == k + Utf8Len(tofill)
      invariant k == 0 || l <= target
      decreases target - l
    {
      ZeroMore(k, tofill);
      r := "0" + r;
      l, k := l + 1, k + 1;
    }
    ZerosLength(k, tofill);
  }

  /** `isallspaces`: every rune is a Unicode space. */
  method IsAllSpaces(test: string) returns (r: bool)
    ensures r == AllSep(test, GoSpace)
  {
    for i := 0 to |test|
      invariant AllSep(test[..i], GoSpace)
    {
      if !GoSpace(test[i]) {
        return false;
      }
    }
    assert test[..|test|] == test;
    return true;
  }

  /** A text is all separators exactly when it splits into no fields, so
      `isallspaces(s)` is `len(strings.Fields(s)) == 0`. */
  lemma {:induction false} AllSepNoFields(s: string, sep: char -> bool)
    ensures AllSep(s, sep) <==> FieldsFunc(s, sep) == []
    decreases |s|
  {
    if s != [] {
      if sep(s[0]) {
        AllSepNoFields(s[1..], sep);
        if AllSep(s[1..], sep) {
          forall i | 0 <= i < |s|
            ensures sep(s[i])
          {
            if i > 0 {
              assert s[i] == s[1..][i - 1];
            }
          }
        } else {
          var i :| 0 <= i < |s[1..]| && !sep(s[1..][i]);
          assert s[i + 1] == s[1..][i];
        }
      }
    }
  }

  /** A text without separators is one field, or none when it is empty. */
  lemma NoSepOneField(s: string, sep: char -> bool)
    requires NoSep(s, sep)
    ensures FieldsFunc(s, sep) == if s == [] then [] else [s]
  {
    if s != [] {
      var w := Word(s, sep);
      assert !sep(s[0]);
      assert |w| == |s| && w == s;
      assert s[|w|..] == [];
      assert FieldsFunc(s, sep) == [w] + FieldsFunc(s[|w|..], sep);
    }
  }

  /** `parseNFloats`: all texts read as numbers, or an error. */
  method ParseNFloats(parse: string -> Option<real>, s: seq<string>) returns (r: Outcome<seq<real>>)
    ensures r == if ParseAll(parse, s).Some? then Ok(ParseAll(parse, s).value) else Err("Couldn't parse a float")
  {
    var ret: seq<real> := [];
    for i := 0 to |s|
      invariant ParseAll(parse, s[..i]) == Some(ret)
    {
      assert s[..i + 1][..i] == s[..i];
      var f := parse(s[i]);
      if f.None? {
        assert !parse(s[i]).Some?;
        return Err("Couldn't parse a float");
      }
      ret := ret + [f.value];
    }
    assert s[..|s|] == s;
    return Ok(ret);
  }

  /** `parseNInts`: all texts read by `strconv.Atoi`, or an error. */
  method ParseNInts(s: seq<string>) returns (r: Outcome<seq<int>>)
    ensures r == if ParseAll(Atoi, s).Some? then Ok(ParseAll(Atoi, s).value) else Err("Couldn't parse an int")
  {
    var ret: seq<int> := [];
    for i := 0 to |s|
      invariant ParseAll(Atoi, s[..i]) == Some(ret)
    {
      assert s[..i + 1][..i] == s[..i];
      var f := Atoi(s[i]);
      if f.None? {
        assert !Atoi(s[i]).Some?;
        return Err("Couldn't parse an int");
      }
      ret := ret + [f.value];
    }
    assert s[..|s|] == s;
    return Ok(ret);
  }

  // ---------------------------------------------------------------------
  // DDCObj.parseObj: the header text to a dictionary
  // ---------------------------------------------------------------------

  /** `strings.Replace(obj, "\n", "", -1)`. */
  function NoNewlines(s: string): (r: string)
    ensures |r| <= |s| && forall i :: 0 <= i < |r| ==> r[i] != '\n'
    ensures (forall i :: 0 <= i < |s| ==> s[i] != '\n') ==> r == s
    decreases |s|
  {
    if s == [] then []
    else (if s[0] == '\n' then [] else [s[0]]) + NoNewlines(s[1..])
  }

  predicate Brace(c: char) {
    c == '{' || c == '}'
  }

  /** A text of spaces only, read one character at a time. */
  predicate Blank(v: string)
    decreases |v|
  {
    v == [] || (GoSpace(v[0]) && Blank(v[1..]))
  }

  /** `Blank` is `isallspaces`. */
  lemma {:induction false} BlankAllSpaces(v: string)
    ensures Blank(v) <==> AllSep(v, GoSpace)
    decreases |v|
  {
    if v != [] {
      BlankAllSpaces(v[1..]);
      assert forall i :: 0 < i < |v| ==> v[i] == v[1..][i - 1];
      if !AllSep(v[1..], GoSpace) {
        var i :| 0 <= i < |v[1..]| && !GoSpace(v[1..][i]);
        assert !GoSpace(v[i + 1]);
      }
    }
  }

  /** A blank text has no `=`. */
  lemma {:induction false} BlankHasNoEquals(v: string)
    requires Blank(v)
    ensures '=' !in v
    decreases |v|
  {
    if v != [] {
      BlankHasNoEquals(v[1..]);
      assert v == [v[0]] + v[1..];
    }
  }

  /** What one `;`-separated piece of the header body is: blank, without
      a `=`, or a key and a value (the trimmed texts before the first `=`
      and between the first and the second). */
  datatype Piece = Skip | Bad | Pair(key: string, val: string)

  function Classify(v: string): (r: Piece)
    ensures r.Skip? <==> Blank(v)
    ensures r.Bad? <==> !Blank(v) && '=' !in v
  {
    FindChar(v, '=');
    if Blank(v) then Skip
    else if |Split(v, "=")| < 2 then Bad
    else Pair(TrimSpace(Split(v, "=")[0]), TrimSpace(Split(v, "=")[1]))
  }

  function Pieces(segs: seq<string>): (ps: seq<Piece>)
    ensures |ps| == |segs| && forall i :: 0 <= i < |segs| ==> ps[i] == Classify(segs[i])
  {
    seq(|segs|, i requires 0 <= i < |segs| => Classify(segs[i]))
  }

  /** The pieces stored one after the other as the source's loop does,
      which indexes `kv[1]` and so panics on any piece that is not a
      key and a value. */
  function StoreAsWritten(ps: seq<Piece>): (r: Outcome<map<string, string>>)
    ensures r.Ok? ==> r == Store(ps)
    decreases |ps|
  {
    if ps == [] then Ok(map[])
    else
      var p := ps[|ps| - 1];
      match StoreAsWritten(ps[..|ps| - 1])
      case Ok(m) => if p.Pair? then Ok(m[p.key := p.val]) else Panic("index out of range [1] with length 1")
      case Err(e) => Err(e)
      case Panic(e) => Panic(e)
  }

  /** `DDCObj.parseObj` as written: the text of the second brace-free run
      is split on `;` and each piece on `=`. */
  function ObjectAsWritten(obj: string): (r: Outcome<map<string, string>>)
    ensures r.Ok? ==> r == ObjectOf(obj)
  {
    var s := NoNewlines(obj);
    var parts := FieldsFunc(s, Brace);
    if |parts| < 2 then Panic("index out of range [1] with length " + IntText(|parts|))
    else if parts[1] == s then Err("Object not delimited by {}")
    else StoreAsWritten(Pieces(Split(parts[1], ";")))
  }

  /** The stored pieces never error; they panic exactly when one piece is
      not a key and a value. */
  lemma {:induction false} StoreAsWrittenPanics(ps: seq<Piece>)
    ensures !StoreAsWritten(ps).Err?
    ensures StoreAsWritten(ps).Panic? <==> exists i :: 0 <= i < |ps| && !ps[i].Pair?
    decreases |ps|
  {
    if ps != [] {
      var front, p := ps[..|ps| - 1], ps[|ps| - 1];
      StoreAsWrittenPanics(front);
      var somewhere := exists i :: 0 <= i < |ps| && !ps[i].Pair?;
      if exists i :: 0 <= i < |front| && !front[i].Pair? {
        var i :| 0 <= i < |front| && !front[i].Pair?;
        assert ps[i] == front[i];
        assert somewhere;
      } else if !p.Pair? {
        assert !ps[|ps| - 1].Pair?;
        assert somewhere;
      } else {
        forall i | 0 <= i < |ps|
          ensures ps[i].Pair?
        {
          if i < |front| {
            assert front[i] == ps[i];
          }
        }
        assert !somewhere;
      }
    }
  }

  /** The "not delimited by {}" error cannot happen: a second brace-free
      run exists only if the text has a brace, which the run lacks. A text
      without braces panics instead. */
  lemma ObjectGuardDead(obj: string)
    ensures !ObjectAsWritten(obj).Err?
    ensures NoSep(NoNewlines(obj), Brace) ==> ObjectAsWritten(obj).Panic?
  {
    var s := NoNewlines(obj);
    var parts := FieldsFunc(s, Brace);
    if NoSep(s, Brace) {
      NoSepOneField(s, Brace);
    } else if |parts| >= 2 {
      var k :| 0 <= k < |s| && Brace(s[k]);
      assert NoSep(parts[1], Brace);
      assert parts[1] != s;
      StoreAsWrittenPanics(Pieces(Split(parts[1], ";")));
    }
  }

  /** A body ending in `;` splits into the entry and an empty last piece. */
  lemma TrailingSemicolon(w: string)
    requires ';' !in w
    ensures Split(w + ";", ";") == [w, ""]
  {
    SplitStep(w, ";", "");
    assert w + ";" == w + ";" + "";
  }

  /** A text with no brace and no newline. */
  predicate Flat(s: string) {
    forall i :: 0 <= i < |s| ==> !Brace(s[i]) && s[i] != '\n'
  }

  /** A header `pre{body}` with a flat prefix and body, newlines dropped,
      splits at its braces into the prefix and the body. */
  lemma BracedBody(pre: string, body: string)
    requires pre != [] && body != [] && Flat(pre) && Flat(body)
    ensures FieldsFunc(NoNewlines(pre + "{" + body + "}"), Brace) == [pre, body]
  {
    var obj := pre + "{" + body + "}";
    forall i | 0 <= i < |obj|
      ensures obj[i] != '\n'
    {
      if i < |pre| {
        assert obj[i] == pre[i];
      } else if |pre| < i < |pre| + 1 + |body| {
        assert obj[i] == body[i - |pre| - 1];
      }
    }
    assert obj == pre + ("{" + (body + ("}" + "")));
    assert NoSep(pre, Brace) && NoSep(body, Brace);
    FieldsOfSeparators("}", "", Brace);
    FieldsCons(body, "}" + "", Brace);
    FieldsOfSeparators("{", body + ("}" + ""), Brace);
    FieldsCons(pre, "{" + (body + ("}" + "")), Brace);
  }

  /** A header whose last entry ends in `;`, the usual DDCMD layout, makes
      the source's `parseObj` panic on the empty piece after it. */
  lemma ObjectTrailingPanics(pre: string, w: string)
    requires pre != [] && Flat(pre) && Flat(w) && ';' !in w
    ensures ObjectAsWritten(pre + "{" + w + ";}").Panic?
  {
    var body := w + ";";
    assert Flat(body) by {
      forall i | 0 <= i < |body|
        ensures !Brace(body[i]) && body[i] != '\n'
      {
        if i < |w| {
          assert body[i] == w[i];
        }
      }
    }
    assert pre + "{" + w + ";}" == pre + "{" + body + "}";
    BracedBody(pre, body);
    TrailingSemicolon(w);
    var ps := Pieces([w, ""]);
    assert ps[1] == Classify("") == Skip;
    StoreAsWrittenPanics(ps);
  }

  /** The intended reading of the pieces: blank ones (the one after a
      final `;`) are skipped and one without `=` is an error. */
  function Store(ps: seq<Piece>): (r: Outcome<map<string, string>>)
    ensures r.Ok? || r == Err("Header entry without '='")
    decreases |ps|
  {
    if ps == [] then Ok(map[])
    else
      var p := ps[|ps| - 1];
      match Store(ps[..|ps| - 1])
      case Ok(m) =>
        (match p
         case Skip => Ok(m)
         case Bad => Err("Header entry without '='")
         case Pair(k, v) => Ok(m[k := v]))
      case Err(e) => Err(e)
  }

  /** `Store` succeeds exactly when no piece lacks a `=`. */
  lemma {:induction false} StoreOk(ps: seq<Piece>)
    ensures Store(ps).Ok? <==> forall i :: 0 <= i < |ps| ==> !ps[i].Bad?
    decreases |ps|
  {
    if ps != [] {
      var front, p := ps[..|ps| - 1], ps[|ps| - 1];
      StoreOk(front);
      var everywhere := forall i :: 0 <= i < |ps| ==> !ps[i].Bad?;
      if exists i :: 0 <= i < |front| && front[i].Bad? {
        var i :| 0 <= i < |front| && front[i].Bad?;
        assert ps[i] == front[i];
        assert !everywhere;
      } else if p.Bad? {
        assert ps[|ps| - 1].Bad?;
        assert !everywhere;
      } else {
        forall i | 0 <= i < |ps|
          ensures !ps[i].Bad?
        {
          if i < |front| {
            assert front[i] == ps[i];
          }
        }
        assert everywhere;
      }
    }
  }

  /** The keys `Store` holds are exactly the keys of the pairs. */
  lemma {:induction false} StoreHas(ps: seq<Piece>, k: string)
    requires Store(ps).Ok?
    ensures k in Store(ps).value <==> exists i :: 0 <= i < |ps| && (ps[i].Pair? && ps[i].key == k)
    decreases |ps|
  {
    if ps != [] {
      var front, p := ps[..|ps| - 1], ps[|ps| - 1];
      StoreHas(front, k);
      var m0 := Store(front).value;
      var somewhere := exists i :: 0 <= i < |ps| && (ps[i].Pair? && ps[i].key == k);
      if k in m0 {
        var i :| 0 <= i < |front| && (front[i].Pair? && front[i].key == k);
        assert ps[i] == front[i];
        assert somewhere;
      } else if p.Pair? && p.key == k {
        assert (ps[|ps| - 1].Pair? && ps[|ps| - 1].key == k);
        assert somewhere;
      } else {
        forall i | 0 <= i < |ps|
          ensures !(ps[i].Pair? && ps[i].key == k)
        {
          if i < |front| {
            assert front[i] == ps[i];
          }
        }
        assert !somewhere;
      }
    }
  }

  /** A pair no later pair overrides gives its key its value. */
  lemma {:induction false} StoreValue(ps: seq<Piece>, i: nat)
    requires Store(ps).Ok? && i < |ps| && ps[i].Pair?
    requires forall j :: i < j < |ps| && ps[j].Pair? ==> ps[j].key != ps[i].key
    ensures ps[i].key in Store(ps).value && Store(ps).value[ps[i].key] == ps[i].val
    decreases |ps|
  {
    var front, p := ps[..|ps| - 1], ps[|ps| - 1];
    if i < |front| {
      assert front[i] == ps[i];
      forall j | i < j < |front| && front[j].Pair?
        ensures front[j].key != front[i].key
      {
        assert front[j] == ps[j];
      }
      StoreValue(front, i);
      if p.Pair? {
        assert p == ps[|ps| - 1];
      }
    }
  }

  /** `DDCObj.parseObj` as intended: a text without a second brace-free
      run is the "not delimited" error, and the pieces are read by
      `Store`. */
  function ObjectOf(obj: string): (r: Outcome<map<string, string>>)
    ensures !r.Panic?
    ensures |FieldsFunc(NoNewlines(obj), Brace)| < 2 ==> r == Err("Object not delimited by {}")
  {
    var parts := FieldsFunc(NoNewlines(obj), Brace);
    if |parts| < 2 then Err("Object not delimited by {}")
    else Store(Pieces(Split(parts[1], ";")))
  }

  /** A text with a `=` in it is not blank. */
  lemma EqualsNotBlank(e: string)
    requires '=' in e
    ensures !Blank(e)
  {
    if Blank(e) {
      BlankHasNoEquals(e);
    }
  }

  /** `k=v` with `=` only between them splits on `=` into the two. */
  lemma SplitEntry(k: string, v: string)
    requires '=' !in k && '=' !in v
    ensures Split(k + "=" + v, "=") == [k, v]
  {
    SplitStep(k, "=", v);
    FindAbsent(v, "=");
  }

  /** `k=v`, with trimmed `k` and `v` free of `=`, is the pair of the two. */
  lemma ClassifyEntry(k: string, v: string)
    requires '=' !in k && '=' !in v && TrimSpace(k) == k && TrimSpace(v) == v
    ensures Classify(k + "=" + v) == Pair(k, v)
  {
    var e := k + "=" + v;
    assert e[|k|] == '=';
    EqualsNotBlank(e);
    SplitEntry(k, v);
  }

  /** `k=v;` is flat when `k` and `v` are, and `;` ends it. */
  lemma EntryFlat(k: string, v: string)
    requires Flat(k) && Flat(v) && ';' !in k && ';' !in v
    ensures Flat(k + "=" + v + ";") && ';' !in k + "=" + v
  {
    var e := k + "=" + v;
    var body := e + ";";
    forall i | 0 <= i < |body|
      ensures !Brace(body[i]) && body[i] != '\n' && (i < |e| ==> body[i] != ';')
    {
      if i < |k| {
        assert body[i] == k[i];
      } else if |k| < i < |e| {
        assert body[i] == v[i - |k| - 1];
      }
    }
  }

  /** A body `w;` is the piece `w` and a blank piece. */
  lemma TrailingPieces(w: string)
    requires ';' !in w
    ensures Pieces(Split(w + ";", ";")) == [Classify(w), Skip]
  {
    TrailingSemicolon(w);
    assert Classify("") == Skip;
  }

  /** The body `k=v;` is one pair and a blank piece. */
  lemma EntryPieces(k: string, v: string)
    requires '=' !in k && '=' !in v && ';' !in k + "=" + v
    requires TrimSpace(k) == k && TrimSpace(v) == v
    ensures Pieces(Split(k + "=" + v + ";", ";")) == [Pair(k, v), Skip]
  {
    TrailingPieces(k + "=" + v);
    ClassifyEntry(k, v);
  }

  /** One pair and a blank piece store the pair. */
  lemma StoreOne(k: string, v: string)
    ensures Store([Pair(k, v), Skip]) == Ok(map[k := v])
  {
    var ps := [Pair(k, v), Skip];
    assert ps[..1] == [Pair(k, v)] && ps[..1][..0] == [];
    assert Store([]) == Ok(map[]);
  }

  /** A header `pre{body}` with a flat prefix and body reads as the
      pieces of its body. */
  lemma ObjectOfBody(pre: string, body: string)
    requires pre != [] && body != [] && Flat(pre) && Flat(body)
    ensures ObjectOf(pre + "{" + body + "}") == Store(Pieces(Split(body, ";")))
  {
    BracedBody(pre, body);
  }

  /** A header `pre{k=v;}`, which panics as written, reads as its one
      entry. */
  lemma ObjectTrailingRead(pre: string, k: string, v: string)
    requires pre != [] && Flat(pre) && Flat(k) && Flat(v)
    requires '=' !in k && '=' !in v && ';' !in k && ';' !in v
    requires TrimSpace(k) == k && TrimSpace(v) == v
    ensures ObjectOf(pre + "{" + k + "=" + v + ";}") == Ok(map[k := v])
  {
    var e := k + "=" + v;
    EntryFlat(k, v);
    EntryPieces(k, v);
    StoreOne(k, v);
    ObjectOfEntry(pre, e);
    EntryText(pre, k, v);
  }

  /** The header text regrouped around its one entry. */
  lemma EntryText(pre: string, k: string, v: string)
    ensures pre + "{" + k + "=" + v + ";}" == pre + "{" + (k + "=" + v) + ";}"
  {
  }

  /** A header `pre{e;}` reads as the pieces of `e;`. */
  lemma ObjectOfEntry(pre: string, e: string)
    requires pre != [] && Flat(pre) && Flat(e + ";")
    ensures ObjectOf(pre + "{" + e + ";}") == Store(Pieces(Split(e + ";", ";")))
  {
    assert pre + "{" + e + ";}" == pre + "{" + (e + ";") + "}";
    ObjectOfBody(pre, e + ";");
  }

  // ---------------------------------------------------------------------
  // header.parseObj: the dictionary to the header record
  // ---------------------------------------------------------------------

  /** The `header` record. */
  datatype HeaderState = HeaderState(offset: int, dataType: string, l: seq<real>, nfields: int, nfiles: int,
                                     nrecord: int, fieldName: seq<string>, fieldType: seq<string>, time: real,
                                     species: seq<string>, fieldUnit: seq<string>, fieldFormat: seq<string>)

  /** The keys a header must have, in the order they are checked. */
  const Required: seq<string> := ["datatype", "h", "field_names", "field_types", "nfields", "nfiles", "nrecord", "time"]

  /** The first key of `req` missing from `obj`. */
  function FirstMissing(req: seq<string>, obj: map<string, string>): (r: Option<string>)
    ensures r.None? <==> forall i :: 0 <= i < |req| ==> req[i] in obj
    ensures r.Some? ==> exists i :: 0 <= i < |req| && req[i] == r.value && req[i] !in obj && forall j :: 0 <= j < i ==> req[j] in obj
    decreases |req|
  {
    if req == [] then None
    else if req[0] !in obj then Some(req[0])
    else
      var r := FirstMissing(req[1..], obj);
      assert forall i :: 1 <= i < |req| ==> req[i] == req[1..][i - 1];
      if r.Some? then
        var i :| 0 <= i < |req[1..]| && req[1..][i] == r.value && req[1..][i] !in obj && forall j :: 0 <= j < i ==> req[1..][j] in obj;
        assert req[i + 1] == r.value && forall j :: 0 <= j < i + 1 ==> req[j] in obj;
        r
      else r
  }

  /** The loop of `header.parseObj` over the required keys. */
  method MissingKey(req: seq<string>, obj: map<string, string>) returns (r: Option<string>)
    ensures r == FirstMissing(req, obj)
  {
    for i := 0 to |req|
      invariant FirstMissing(req[i..], obj) == FirstMissing(req, obj)
    {
      if req[i] !in obj {
        return Some(req[i]);
      }
      assert req[i..][1..] == req[i + 1..];
    }
    assert req[|req|..] == [];
    return None;
  }

  /** Every required key is present. */
  predicate HasRequired(obj: map<string, string>) {
    "datatype" in obj && "h" in obj && "field_names" in obj && "field_types" in obj
    && "nfields" in obj && "nfiles" in obj && "nrecord" in obj && "time" in obj
  }

  /** No key is missing exactly when all are present. */
  lemma RequiredPresent(obj: map<string, string>)
    ensures FirstMissing(Required, obj).None? <==> HasRequired(obj)
  {
    assert Required[0] == "datatype" && Required[1] == "h" && Required[2] == "field_names";
    assert Required[3] == "field_types" && Required[4] == "nfields" && Required[5] == "nfiles";
    assert Required[6] == "nrecord" && Required[7] == "time";
  }

  /** The three box lengths: fields 0, 4 and 8 of `h`. */
  function BoxFields(obj: map<string, string>): seq<string>
    requires "h" in obj && |Fields(obj["h"])| >= 9
  {
    var hf := Fields(obj["h"]);
    [hf[0], hf[4], hf[8]]
  }

  /** The three counts. */
  function CountFields(obj: map<string, string>): seq<string>
    requires "nfields" in obj && "nfiles" in obj && "nrecord" in obj
  {
    [obj["nfields"], obj["nfiles"], obj["nrecord"]]
  }

  /** Everything before the time is readable. */
  predicate UpToTime(obj: map<string, string>, parse: string -> Option<real>) {
    HasRequired(obj)
    && |Fields(obj["h"])| >= 9
    && ParseAll(parse, BoxFields(obj)).Some?
    && ParseAll(Atoi, CountFields(obj)).Some?
  }

  /** The optional keys, each read only when present. */
  function Optionals(h: HeaderState, obj: map<string, string>): HeaderState {
    h.(species := if "species" in obj then Fields(obj["species"]) else h.species,
       fieldFormat := if "field_format" in obj then Fields(obj["field_format"]) else h.fieldFormat,
       fieldUnit := if "field_units" in obj then Fields(obj["field_units"]) else h.fieldUnit)
  }

  /** A header read from `obj`: the record holds what each key says. */
  predicate HeaderRead(r: HeaderState, h: HeaderState, obj: map<string, string>, parse: string -> Option<real>)
    requires UpToTime(obj, parse)
  {
    var tf := Fields(obj["time"]);
    r.offset == h.offset && r.dataType == obj["datatype"]
    && |r.l| == 3 && (forall i :: 0 <= i < 3 ==> parse(BoxFields(obj)[i]) == Some(r.l[i]))
    && Atoi(obj["nfields"]) == Some(r.nfields) && Atoi(obj["nfiles"]) == Some(r.nfiles)
    && Atoi(obj["nrecord"]) == Some(r.nrecord)
    && r.fieldName == Fields(obj["field_names"]) && r.fieldType == Fields(obj["field_types"])
    && tf != [] && parse(tf[0]).Some? && r.time == parse(tf[0]).value * 0.001
    && r.species == (if "species" in obj then Fields(obj["species"]) else h.species)
    && r.fieldFormat == (if "field_format" in obj then Fields(obj["field_format"]) else h.fieldFormat)
    && r.fieldUnit == (if "field_units" in obj then Fields(obj["field_units"]) else h.fieldUnit)
  }

  /** The last step of `header.parseObj`: the first word of `time`, scaled
      by 0.001, then the optional keys. */
  function TimeStage(h: HeaderState, obj: map<string, string>, parse: string -> Option<real>): (r: (HeaderState, Outcome<()>))
    requires "time" in obj
    ensures r.1.Ok? <==> Fields(obj["time"]) != [] && parse(Fields(obj["time"])[0]).Some?
    ensures r.1.Panic? <==> Fields(obj["time"]) == []
    ensures !r.1.Ok? ==> r.0 == h
    ensures r.1.Ok? ==> r.0.time == parse(Fields(obj["time"])[0]).value * 0.001
    ensures r.0.(time := h.time, species := h.species, fieldUnit := h.fieldUnit, fieldFormat := h.fieldFormat) == h
  {
    var tf := Fields(obj["time"]);
    if tf == [] then (h, Panic("index out of range [0] with length 0"))
    else match parse(tf[0])
      case None => (h, Err("Parsing time: " + ParseFloatError(tf[0])))
      case Some(t) => (Optionals(h.(time := t * 0.001), obj), Ok(()))
  }

  /** The counts and the field names and types, then the time. */
  function CountStage(h: HeaderState, obj: map<string, string>, parse: string -> Option<real>): (r: (HeaderState, Outcome<()>))
    requires HasRequired(obj)
    ensures ParseAll(Atoi, CountFields(obj)).None? ==> r == (h, Err("Couldn't parse an int"))
    ensures r.1.Ok? ==> Atoi(obj["nfields"]) == Some(r.0.nfields) && Atoi(obj["nfiles"]) == Some(r.0.nfiles)
                        && Atoi(obj["nrecord"]) == Some(r.0.nrecord)
                        && r.0.fieldName == Fields(obj["field_names"]) && r.0.fieldType == Fields(obj["field_types"])
    ensures r.0.offset == h.offset && r.0.dataType == h.dataType && r.0.l == h.l
  {
    match ParseAll(Atoi, CountFields(obj))
    case None => (h, Err("Couldn't parse an int"))
    case Some(ns) =>
      TimeStage(h.(nfields := ns[0], nfiles := ns[1], nrecord := ns[2],
                   fieldName := Fields(obj["field_names"]), fieldType := Fields(obj["field_types"])), obj, parse)
  }

  /** The box lengths from `h`, then the counts. */
  function BoxStage(h: HeaderState, obj: map<string, string>, parse: string -> Option<real>): (r: (HeaderState, Outcome<()>))
    requires HasRequired(obj)
    ensures |Fields(obj["h"])| < 9 ==> r == (h, Err("field 'h' has less than the required 9 sub-fields"))
    ensures r.1.Ok? ==> |Fields(obj["h"])| >= 9 && |r.0.l| == 3
                        && forall i :: 0 <= i < 3 ==> parse(BoxFields(obj)[i]) == Some(r.0.l[i])
    ensures r.0.offset == h.offset && r.0.dataType == h.dataType
  {
    if |Fields(obj["h"])| < 9 then (h, Err("field 'h' has less than the required 9 sub-fields"))
    else match ParseAll(parse, BoxFields(obj))
      case None => (h, Err("Couldn't parse a float"))
      case Some(ls) => CountStage(h.(l := ls), obj, parse)
  }

  /** `header.parseObj(obj)` on a record `h`: the new record and the
      outcome. Errors after the key check keep the fields assigned before
      them (`HeaderOutcome` states what comes out). */
  function HeaderOf(h: HeaderState, obj: map<string, string>, parse: string -> Option<real>): (r: (HeaderState, Outcome<()>))
    ensures !HasRequired(obj) ==> r.0 == h && r.1.Err?
    ensures r.1.Ok? ==> HasRequired(obj) && r.0.dataType == obj["datatype"]
    ensures r.0.offset == h.offset
  {
    RequiredPresent(obj);
    match FirstMissing(Required, obj)
    case Some(k) => (h, Err("Oject lacks one or more required fields!: " + k))
    case None => BoxStage(h.(dataType := obj["datatype"]), obj, parse)
  }

  /** `header.parseObj` fails on the first missing key without touching the
      record; it succeeds exactly when the box lengths, the counts and the
      time read, and then the record holds what the keys say; it panics
      exactly when everything before the time reads and `time` is blank. */
  lemma HeaderOutcome(h: HeaderState, obj: map<string, string>, parse: string -> Option<real>)
    ensures FirstMissing(Required, obj).Some? ==>
      HeaderOf(h, obj, parse) == (h, Err("Oject lacks one or more required fields!: " + FirstMissing(Required, obj).value))
    ensures HeaderOf(h, obj, parse).1.Ok? <==> UpToTime(obj, parse) && Fields(obj["time"]) != [] && parse(Fields(obj["time"])[0]).Some?
    ensures HeaderOf(h, obj, parse).1.Ok? ==> HeaderRead(HeaderOf(h, obj, parse).0, h, obj, parse)
    ensures HeaderOf(h, obj, parse).1.Panic? <==> UpToTime(obj, parse) && Fields(obj["time"]) == []
  {
    RequiredPresent(obj);
    if UpToTime(obj, parse) {
      HeaderReadable(h, obj, parse);
      TimeOutcome(Counted(h, obj, parse), h, obj, parse);
    } else if HasRequired(obj) {
      HeaderUnreadable(h, obj, parse);
    }
  }

  /** A box length or a count that does not read is an error. */
  lemma HeaderUnreadable(h: HeaderState, obj: map<string, string>, parse: string -> Option<real>)
    requires HasRequired(obj) && !UpToTime(obj, parse)
    ensures HeaderOf(h, obj, parse).1.Err?
  {
    RequiredPresent(obj);
    var h1 := h.(dataType := obj["datatype"]);
    assert HeaderOf(h, obj, parse) == BoxStage(h1, obj, parse);
    if |Fields(obj["h"])| >= 9 && ParseAll(parse, BoxFields(obj)).Some? {
      var ls := ParseAll(parse, BoxFields(obj)).value;
      assert BoxStage(h1, obj, parse) == CountStage(h1.(l := ls), obj, parse);
    }
  }

  /** The record once everything before the time has been read. */
  function Counted(h: HeaderState, obj: map<string, string>, parse: string -> Option<real>): (r: HeaderState)
    requires UpToTime(obj, parse)
    ensures r.offset == h.offset && r.time == h.time && r.dataType == obj["datatype"]
    ensures Atoi(obj["nfields"]) == Some(r.nfields) && Atoi(obj["nfiles"]) == Some(r.nfiles)
            && Atoi(obj["nrecord"]) == Some(r.nrecord)
    ensures |r.l| == 3 && forall i :: 0 <= i < 3 ==> parse(BoxFields(obj)[i]) == Some(r.l[i])
  {
    var ls := ParseAll(parse, BoxFields(obj)).value;
    var ns := ParseAll(Atoi, CountFields(obj)).value;
    h.(dataType := obj["datatype"], l := ls, nfields := ns[0], nfiles := ns[1], nrecord := ns[2],
       fieldName := Fields(obj["field_names"]), fieldType := Fields(obj["field_types"]))
  }

  /** With everything before the time readable, only the time is left. */
  lemma HeaderReadable(h: HeaderState, obj: map<string, string>, parse: string -> Option<real>)
    requires UpToTime(obj, parse)
    ensures HeaderOf(h, obj, parse) == TimeStage(Counted(h, obj, parse), obj, parse)
  {
    RequiredPresent(obj);
  }

  /** What the time stage makes of the record read so far. */
  lemma TimeOutcome(h3: HeaderState, h: HeaderState, obj: map<string, string>, parse: string -> Option<real>)
    requires UpToTime(obj, parse) && h3 == Counted(h, obj, parse)
    ensures TimeStage(h3, obj, parse).1.Ok? <==> Fields(obj["time"]) != [] && parse(Fields(obj["time"])[0]).Some?
    ensures TimeStage(h3, obj, parse).1.Panic? <==> Fields(obj["time"]) == []
    ensures TimeStage(h3, obj, parse).1.Ok? ==> HeaderRead(TimeStage(h3, obj, parse).0, h, obj, parse)
  {
    assert CountFields(obj)[0] == obj["nfields"] && CountFields(obj)[1] == obj["nfiles"];
    assert CountFields(obj)[2] == obj["nrecord"];
  }

  /** `header`: the record `header.parseObj` fills in. */
  class Header {
    var offset: int
    var dataType: string
    var l: seq<real>
    var nfields: int
    var nfiles: int
    var nrecord: int
    var fieldName: seq<string>
    var fieldType: seq<string>
    var time: real
    var species: seq<string>
    var fieldUnit: seq<string>
    var fieldFormat: seq<string>

    function State(): HeaderState
      reads this
    {
      HeaderState(offset, dataType, l, nfields, nfiles, nrecord, fieldName, fieldType, time, species, fieldUnit, fieldFormat)
    }

    /** `new(header)`: Go's zero values. */
    constructor ()
      ensures State() == HeaderState(0, "", [0.0, 0.0, 0.0], 0, 0, 0, [], [], 0.0, [], [], [])
    {
      offset, dataType, l := 0, "", [0.0, 0.0, 0.0];
      nfields, nfiles, nrecord := 0, 0, 0;
      fieldName, fieldType, time := [], [], 0.0;
      species, fieldUnit, fieldFormat := [], [], [];
    }

    /** `header.parseObj(obj)`. */
    method ParseObj(obj: map<string, string>, parse: string -> Option<real>) returns (r: Outcome<()>)
      modifies this
      ensures (State(), r) == HeaderOf(old(State()), obj, parse)
    {
      var missing := MissingKey(Required, obj);
      if missing.Some? {
        return Err("Oject lacks one or more required fields!: " + missing.value);
      }
      RequiredPresent(obj);
      dataType := obj["datatype"];
      r := ReadBox(obj, parse);
    }

    /** The box lengths: fields 0, 4 and 8 of `h`. */
    method ReadBox(obj: map<string, string>, parse: string -> Option<real>) returns (r: Outcome<()>)
      requires HasRequired(obj)
      modifies this
      ensures (State(), r) == BoxStage(old(State()), obj, parse)
    {
      var hfields := Fields(obj["h"]);
      if |hfields| < 9 {
        return Err("field 'h' has less than the required 9 sub-fields");
      }
      var ls := ParseNFloats(parse, [hfields[0], hfields[4], hfields[8]]);
      if !ls.Ok? {
        return Err(ls.msg);
      }
      l := ls.value;
      r := ReadCounts(obj, parse);
    }

    /** `nfields`, `nfiles` and `nrecord`, and the field names and types. */
    method ReadCounts(obj: map<string, string>, parse: string -> Option<real>) returns (r: Outcome<()>)
      requires HasRequired(obj)
      modifies this
      ensures (State(), r) == CountStage(old(State()), obj, parse)
    {
      var intf := ParseNInts(CountFields(obj));
      if !intf.Ok? {
        return Err(intf.msg);
      }
      var ns := intf.value;
      ghost var next := old(State()).(nfields := ns[0], nfiles := ns[1], nrecord := ns[2],
                                       fieldName := Fields(obj["field_names"]), fieldType := Fields(obj["field_types"]));
      assert CountStage(old(State()), obj, parse) == TimeStage(next, obj, parse);
      SetCounts(ns[0], ns[1], ns[2], Fields(obj["field_names"]), Fields(obj["field_types"]));
      r := ReadTime(obj, parse);
    }

    /** The assignments of the counts and the field names and types. */
    method SetCounts(nfields: int, nfiles: int, nrecord: int, fieldName: seq<string>, fieldType: seq<string>)
      modifies this
      ensures State() == old(State()).(nfields := nfields, nfiles := nfiles, nrecord := nrecord,
                                       fieldName := fieldName, fieldType := fieldType)
    {
      this.nfields, this.nfiles, this.nrecord := nfields, nfiles, nrecord;
      this.fieldName, this.fieldType := fieldName, fieldType;
    }

    /** The time, then the optional keys. */
    method ReadTime(obj: map<string, string>, parse: string -> Option<real>) returns (r: Outcome<()>)
      requires "time" in obj
      modifies this
      ensures (State(), r) == TimeStage(old(State()), obj, parse)
    {
      var tf := Fields(obj["time"]);
      if tf == [] {
        return Panic("index out of range [0] with length 0");
      }
      var t := parse(tf[0]);
      if t.None? {
        return Err("Parsing time: " + ParseFloatError(tf[0]));
      }
      time := t.value * 0.001;
      ReadOptionals(obj);
      return Ok(());
    }

    /** The optional keys `species`, `field_format` and `field_units`. */
    method ReadOptionals(obj: map<string, string>)
      modifies this
      ensures State() == Optionals(old(State()), obj)
    {
      if "species" in obj {
        species := Fields(obj["species"]);
      }
      if "field_format" in obj {
        fieldFormat := Fields(obj["field_format"]);
      }
      if "field_units" in obj {
        fieldUnit := Fields(obj["field_units"]);
      }
    }
  }

  // ---------------------------------------------------------------------
  // DDCObj.bitFormat: field types to binary formats
  // ---------------------------------------------------------------------

  /** One field type read as `bitFormat` reads it: byte 1 as a decimal
      digit, byte 0 as `u` or `f`. Go indexes bytes: a type shorter than two
      bytes panics, and after a non-ASCII first character byte 1 is a
      continuation byte, never a digit. */
  function BitOf(v: string): (r: Outcome<(string, int)>)
    ensures r.Panic? <==> Utf8Len(v) < 2
    ensures r == Ok(("unit32", 4)) <==> |v| >= 2 && v[0] == 'u' && v[1] == '4'
    ensures r == Ok(("uint64", 8)) <==> |v| >= 2 && v[0] == 'u' && v[1] == '8'
    ensures r == Ok(("float32", 4)) <==> |v| >= 2 && v[0] == 'f' && v[1] == '4'
    ensures r == Ok(("float64", 8)) <==> |v| >= 2 && v[0] == 'f' && v[1] == '8'
    ensures r.Ok? ==> r.value in {("unit32", 4), ("uint64", 8), ("float32", 4), ("float64", 8)}
  {
    if Utf8Len(v) < 2 then Panic("index out of range [1] with length " + IntText(Utf8Len(v)))
    else if v[0] as int >= 0x80 || |v| < 2 || !IsDigit(v[1]) then Err("Wrong bit format: " + v)
    else
      var bit := DigitValue(v[1]);
      if v[0] == 'u' && bit == 4 then Ok(("unit32", 4))
      else if v[0] == 'u' && bit == 8 then Ok(("uint64", 8))
      else if v[0] == 'f' && bit == 4 then Ok(("float32", 4))
      else if v[0] == 'f' && bit == 8 then Ok(("float64", 8))
      else Err("Bit format not supported: " + v)
  }

  /** How many field types, from the first, `bitFormat` accepts before the
      first it rejects. */
  function Leading(ft: seq<string>): (n: nat)
    ensures n <= |ft| && (forall i :: 0 <= i < n ==> BitOf(ft[i]).Ok?)
    ensures n < |ft| ==> !BitOf(ft[n]).Ok?
    decreases |ft|
  {
    if ft == [] || !BitOf(ft[0]).Ok? then 0
    else
      var n := Leading(ft[1..]);
      assert forall i :: 1 <= i < n + 1 ==> ft[i] == ft[1..][i - 1];
      1 + n
  }

  /** The loop of `bitFormat`: the formats and widths of the field types
      up to the first one it rejects. */
  method FieldFormats(ft: seq<string>) returns (fform: seq<string>, fbits: seq<int>)
    ensures |fform| == Leading(ft) == |fbits|
    ensures forall k :: 0 <= k < |fform| ==> BitOf(ft[k]) == Ok((fform[k], fbits[k]))
  {
    fform, fbits := [], [];
    var i := 0;
    while i < |ft|
      invariant i <= Leading(ft) && |fform| == i == |fbits|
      invariant forall k :: 0 <= k < i ==> BitOf(ft[k]) == Ok((fform[k], fbits[k]))
    {
      var b := BitOf(ft[i]);
      if !b.Ok? {
        return;
      }
      fform := fform + [b.value.0];
      fbits := fbits + [b.value.1];
      i := i + 1;
    }
  }

  /** The loop of `DDCObj.parseObj` over the `;`-separated pieces. */
  method StoreSegments(segs: seq<string>) returns (r: Outcome<map<string, string>>)
    ensures r == Store(Pieces(segs))
  {
    ghost var ps := Pieces(segs);
    var mapaq: map<string, string> := map[];
    for i := 0 to |segs|
      invariant Store(ps[..i]) == Ok(mapaq)
    {
      assert ps[..i + 1][..i] == ps[..i];
      var v := segs[i];
      var blank := IsAllSpaces(v);
      BlankAllSpaces(v);
      if blank {
        continue;
      }
      var kv := Split(v, "=");
      if |kv| < 2 {
        StoreOk(ps);
        return Err("Header entry without '='");
      }
      mapaq := mapaq[TrimSpace(kv[0]) := TrimSpace(kv[1])];
    }
    assert ps[..|segs|] == ps;
    return Ok(mapaq);
  }

  /** The DDCMD trajectory object, with the header it reads from. */
  class DdcObj {
    var h: Header
    var fieldFmt: seq<string>
    var fieldBit: seq<int>
    /** Whether `endian` has been set to little-endian. */
    var littleEndian: bool

    constructor (h: Header)
      ensures this.h == h && fieldFmt == [] && fieldBit == [] && !littleEndian
    {
      this.h := h;
      fieldFmt, fieldBit, littleEndian := [], [], false;
    }

    /** `DDCObj.parseObj`, as intended (see `ObjectOf`). */
    method ParseObject(obj: string) returns (r: Outcome<map<string, string>>)
      ensures r == ObjectOf(obj)
    {
      var parts := FieldsFunc(NoNewlines(obj), Brace);
      if |parts| < 2 {
        return Err("Object not delimited by {}");
      }
      r := StoreSegments(Split(parts[1], ";"));
    }

    /** `bitFormat`: the formats and widths of the header's field types,
        all or none; the byte order is set once a type has been accepted. */
    method BitFormat() returns (r: Outcome<()>)
      modifies this
      ensures h == old(h)
      ensures var ft := h.fieldType;
        Leading(ft) == |ft| ==>
          r == Ok(()) && |fieldFmt| == |ft| == |fieldBit|
          && forall i :: 0 <= i < |ft| ==> BitOf(ft[i]) == Ok((fieldFmt[i], fieldBit[i]))
      ensures var ft := h.fieldType;
        Leading(ft) < |ft| ==>
          !r.Ok? && r.Panic? == BitOf(ft[Leading(ft)]).Panic? && r.msg == BitOf(ft[Leading(ft)]).msg
          && fieldFmt == old(fieldFmt) && fieldBit == old(fieldBit)
      ensures littleEndian == (old(littleEndian) || Leading(h.fieldType) > 0)
    {
      var ft := h.fieldType;
      var fform, fbits := FieldFormats(ft);
      var n := |fform|;
      if n > 0 {
        littleEndian := true;
      }
      if n < |ft| {
        var b := BitOf(ft[n]);
        if b.Panic? {
          return Panic(b.msg);
        }
        return Err(b.msg);
      }
      fieldFmt := fform;
      fieldBit := fbits;
      return Ok(());
    }
  }
}
