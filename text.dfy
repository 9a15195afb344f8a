/** The string operations the modelled code calls: whitespace and
    separator splitting (Go `strings.Fields`, `strings.FieldsFunc`,
    `strings.Split`, Python `str.split`), joining, substring search, trimming,
    and reading one line from a text stream the way Go's
    `bufio.Reader.ReadString('\n')` and Python's line iteration do. */
module Text {
  import opened Wrappers

  /** Go's `unicode.IsSpace`. */
  predicate GoSpace(c: char) {
    var n := c as int;
    (9 <= n <= 13) || n == 32 || n == 0x85 || n == 0xA0 || n == 0x1680
    || (0x2000 <= n <= 0x200A) || n == 0x2028 || n == 0x2029 || n == 0x202F
    || n == 0x205F || n == 0x3000
  }

  /** Python's `str.isspace` on one character, which is what `str.split()`
      without arguments splits on: Go's set plus the four information
      separators U+001C..U+001F. */
  predicate PySpace(c: char) {
    GoSpace(c) || (0x1C <= c as int <= 0x1F)
  }

  /** No character of `w` satisfies `sep`. */
  predicate NoSep(w: string, sep: char -> bool) {
    forall i :: 0 <= i < |w| ==> !sep(w[i])
  }

  /** Every character of `w` satisfies `sep`. */
  predicate AllSep(w: string, sep: char -> bool) {
    forall i :: 0 <= i < |w| ==> sep(w[i])
  }

  /** The longest prefix of `s` with no separator character. */
  function Word(s: string, sep: char -> bool): (w: string)
    ensures |w| <= |s| && w == s[..|w|] && NoSep(w, sep)
    ensures |w| < |s| ==> sep(s[|w|])
  {
    if s == [] || sep(s[0]) then [] else [s[0]] + Word(s[1..], sep)
  }

  /** Go's `strings.FieldsFunc`: the maximal runs of non-separator
      characters, in order. */
  function FieldsFunc(s: string, sep: char -> bool): (r: seq<string>)
    ensures forall i :: 0 <= i < |r| ==> r[i] != [] && NoSep(r[i], sep)
    decreases |s|
  {
    if s == [] then []
    else if sep(s[0]) then FieldsFunc(s[1..], sep)
    else
      var w := Word(s, sep);
      [w] + FieldsFunc(s[|w|..], sep)
  }

  /** Go's `strings.Fields` and `bytes.Fields`. */
  function Fields(s: string): seq<string> {
    FieldsFunc(s, GoSpace)
  }

  /** Python's `str.split()` with no argument. */
  function PyFields(s: string): seq<string> {
    FieldsFunc(s, PySpace)
  }

  /** Go's `strings.Join` (and Python's `str.join`). */
  function Join(ws: seq<string>, sep: string): string
    decreases |ws|
  {
    if ws == [] then "" else if |ws| == 1 then ws[0] else ws[0] + sep + Join(ws[1..], sep)
  }

  /** Appending text to text already written: the grouping does not
      matter. Calling it for each append keeps a writer's proof from
      rebuilding the step from the characters of the pieces. */
  lemma AppendAssoc(a: string, b: string, c: string)
    ensures (a + b) + c == a + (b + c)
  {
  }

  /** Joining the pieces of a list with a separator after each one:
      `ws[0] + sep + ws[1] + sep + ...`, only the last one without. */
  lemma JoinCons(w: string, ws: seq<string>, sep: string)
    requires ws != []
    ensures Join([w] + ws, sep) == w + sep + Join(ws, sep)
  {
    assert ([w] + ws)[1..] == ws;
  }

  /** Joining words with one more word at the end. */
  lemma {:induction false} JoinSnoc(ws: seq<string>, w: string, sep: string)
    requires ws != []
    ensures Join(ws + [w], sep) == Join(ws, sep) + sep + w
    decreases |ws|
  {
    if |ws| == 1 {
      assert (ws + [w])[1..] == [w];
    } else {
      assert (ws + [w])[1..] == ws[1..] + [w];
      JoinSnoc(ws[1..], w, sep);
      AppendAssoc(ws[0] + sep, Join(ws[1..], sep) + sep, w);
    }
  }

  lemma {:induction false} WordOfPrefix(w: string, x: string, sep: char -> bool)
    requires NoSep(w, sep)
    requires x == [] || sep(x[0])
    ensures Word(w + x, sep) == w
    decreases |w|
  {
    if w == [] {
      assert w + x == x;
    } else {
      assert (w + x)[1..] == w[1..] + x;
      WordOfPrefix(w[1..], x, sep);
    }
  }

  lemma {:induction false} FieldsOfSeparators(s: string, rest: string, sep: char -> bool)
    requires AllSep(s, sep)
    ensures FieldsFunc(s + rest, sep) == FieldsFunc(rest, sep)
    decreases |s|
  {
    if s != [] {
      assert (s + rest)[1..] == s[1..] + rest;
      FieldsOfSeparators(s[1..], rest, sep);
    } else {
      assert s + rest == rest;
    }
  }

  /** A word followed by a separator (or by nothing) is the first field. */
  lemma FieldsCons(w: string, x: string, sep: char -> bool)
    requires w != [] && NoSep(w, sep)
    requires x == [] || sep(x[0])
    ensures FieldsFunc(w + x, sep) == [w] + FieldsFunc(x, sep)
  {
    WordOfPrefix(w, x, sep);
    assert (w + x)[0] == w[0];
    assert (w + x)[|w|..] == x;
  }

  /** Splitting words that were written separated by one separator
      character, and followed by separators only, gives back the words. */
  lemma {:induction false} FieldsOfJoin(ws: seq<string>, d: char, tail: string, sep: char -> bool)
    requires sep(d) && AllSep(tail, sep)
    requires forall i :: 0 <= i < |ws| ==> ws[i] != [] && NoSep(ws[i], sep)
    ensures FieldsFunc(Join(ws, [d]) + tail, sep) == ws
    decreases |ws|
  {
    if ws == [] {
      FieldsOfSeparators(tail, [], sep);
      assert Join(ws, [d]) + tail == tail + [];
    } else if |ws| == 1 {
      FieldsCons(ws[0], tail, sep);
      FieldsOfSeparators(tail, [], sep);
      assert tail + [] == tail;
    } else {
      FieldsOfJoin(ws[1..], d, tail, sep);
      FieldsOfJoinStep(ws, d, tail, sep);
    }
  }

  /** The step of `FieldsOfJoin`: the first word in front of the others. */
  lemma FieldsOfJoinStep(ws: seq<string>, d: char, tail: string, sep: char -> bool)
    requires |ws| > 1 && sep(d) && ws[0] != [] && NoSep(ws[0], sep)
    requires FieldsFunc(Join(ws[1..], [d]) + tail, sep) == ws[1..]
    ensures FieldsFunc(Join(ws, [d]) + tail, sep) == ws
  {
    var w := ws[0];
    var x := Join(ws[1..], [d]) + tail;
    calc {
      FieldsFunc(Join(ws, [d]) + tail, sep);
    == { assert Join(ws, [d]) == w + [d] + Join(ws[1..], [d]);
         AppendAssoc(w + [d], Join(ws[1..], [d]), tail);
         AppendAssoc(w, [d], x); }
      FieldsFunc(w + ([d] + x), sep);
    == { FieldsCons(w, [d] + x, sep); }
      [w] + FieldsFunc([d] + x, sep);
    == { FieldsOfSeparators([d], x, sep); }
      [w] + FieldsFunc(x, sep);
    == { assert [w] + ws[1..] == ws; }
      ws;
    }
  }

  /** A character in neither the words nor the separator is not in their
      join. */
  lemma {:induction false} JoinAvoids(ws: seq<string>, sep: string, c: char)
    requires c !in sep && forall i :: 0 <= i < |ws| ==> c !in ws[i]
    ensures c !in Join(ws, sep)
    decreases |ws|
  {
    if |ws| > 1 {
      JoinAvoids(ws[1..], sep, c);
    }
  }

  /** Each word behind its own padding: `pads[i] + ws[i]`. */
  function Padded(pads: seq<string>, ws: seq<string>): (r: seq<string>)
    requires |pads| == |ws|
    ensures |r| == |ws| && forall i :: 0 <= i < |ws| ==> r[i] == pads[i] + ws[i]
  {
    seq(|ws|, i requires 0 <= i < |ws| => pads[i] + ws[i])
  }

  /** Words that were written right-aligned (separators before each), one
      separator character between them and separators after the last come
      back as the words. */
  lemma {:induction false} FieldsOfPaddedJoin(pads: seq<string>, ws: seq<string>, d: char, tail: string, sep: char -> bool)
    requires |pads| == |ws| && sep(d) && AllSep(tail, sep)
    requires forall i :: 0 <= i < |ws| ==> ws[i] != [] && NoSep(ws[i], sep) && AllSep(pads[i], sep)
    ensures FieldsFunc(Join(Padded(pads, ws), [d]) + tail, sep) == ws
    decreases |ws|
  {
    var p := Padded(pads, ws);
    if ws == [] {
      FieldsOfSeparators(tail, [], sep);
      assert Join(p, [d]) + tail == tail + [];
    } else if |ws| == 1 {
      assert Join(p, [d]) + tail == pads[0] + (ws[0] + tail);
      FieldsOfSeparators(pads[0], ws[0] + tail, sep);
      FieldsCons(ws[0], tail, sep);
      FieldsOfSeparators(tail, [], sep);
      assert tail + [] == tail;
    } else {
      var x := Join(p[1..], [d]) + tail;
      assert p[1..] == Padded(pads[1..], ws[1..]);
      assert Join(p, [d]) + tail == pads[0] + (ws[0] + ([d] + x));
      FieldsOfSeparators(pads[0], ws[0] + ([d] + x), sep);
      FieldsCons(ws[0], [d] + x, sep);
      FieldsOfSeparators([d], x, sep);
      FieldsOfPaddedJoin(pads[1..], ws[1..], d, tail, sep);
      assert [ws[0]] + ws[1..] == ws;
    }
  }

  /** The first index at which `sep` occurs in `s`. */
  function Find(s: string, sep: string): (r: Option<nat>)
    requires |sep| > 0
    ensures r.Some? ==> r.value + |sep| <= |s| && s[r.value..r.value + |sep|] == sep
    decreases |s|
  {
    if |s| < |sep| then None
    else if s[..|sep|] == sep then Some(0)
    else match Find(s[1..], sep)
      case None => None
      case Some(i) => Some(i + 1)
  }

  /** Go's `strings.Contains` (Python's `in` on strings). */
  predicate Contains(s: string, sub: string) {
    sub == [] || Find(s, sub).Some?
  }

  /** A text in which the first character of `sep` never occurs does not
      contain `sep`. */
  lemma {:induction false} FindAbsent(w: string, sep: string)
    requires |sep| > 0 && sep[0] !in w
    ensures Find(w, sep) == None
    decreases |w|
  {
    if |w| >= |sep| {
      assert w[..|sep|][0] == w[0];
      FindAbsent(w[1..], sep);
    }
  }

  /** A one-character separator is found exactly when it occurs. */
  lemma {:induction false} FindChar(w: string, c: char)
    ensures Find(w, [c]).None? <==> c !in w
    decreases |w|
  {
    if w != [] {
      FindChar(w[1..], c);
      assert w == [w[0]] + w[1..];
    }
  }

  /** `sep` occurs in `s` at index `i`. */
  predicate OccursAt(s: string, sep: string, i: nat) {
    i + |sep| <= |s| && s[i..i + |sep|] == sep
  }

  /** A slice of `s[1..]` is the slice of `s` one place further on. */
  lemma SliceOfTail(s: string, i: nat, n: nat)
    requires 1 <= i && i + n <= |s|
    ensures s[i..i + n] == s[1..][i - 1..i - 1 + n]
  {
  }

  /** `Find` misses `sep` exactly when it occurs nowhere in `s`, and what it
      finds is the first occurrence. */
  lemma {:induction false} FindFirst(s: string, sep: string)
    requires |sep| > 0
    ensures Find(s, sep).None? <==> forall i: nat :: !OccursAt(s, sep, i)
    ensures Find(s, sep).Some? ==> forall i: nat :: i < Find(s, sep).value ==> !OccursAt(s, sep, i)
    decreases |s|
  {
    if |s| < |sep| {
      assert Find(s, sep) == None;
    } else if s[..|sep|] == sep {
      assert OccursAt(s, sep, 0);
    } else {
      var t := s[1..];
      FindFirst(t, sep);
      forall i: nat
        ensures OccursAt(s, sep, i) <==> (i == 0 && s[..|sep|] == sep) || (i > 0 && OccursAt(t, sep, i - 1))
      {
        if i > 0 && i + |sep| <= |s| {
          SliceOfTail(s, i, |sep|);
        }
      }
      if Find(t, sep).Some? {
        assert OccursAt(t, sep, Find(t, sep).value);
        assert OccursAt(s, sep, Find(t, sep).value + 1);
      }
    }
  }

  /** In `w + sep + rest`, where `w` cannot start an occurrence of `sep`,
      the first occurrence is the one right after `w`. */
  lemma {:induction false} FindAfter(w: string, sep: string, rest: string)
    requires |sep| > 0 && sep[0] !in w
    ensures Find(w + sep + rest, sep) == Some(|w|)
    decreases |w|
  {
    var s := w + sep + rest;
    if w == [] {
      assert s[..|sep|] == sep;
    } else {
      assert s[..|sep|][0] == w[0];
      assert s[1..] == w[1..] + sep + rest;
      FindAfter(w[1..], sep, rest);
    }
  }

  /** Go's `strings.Split` (and Python's `str.split(sep)`) for a non-empty
      separator: joining the pieces with the separator gives the text back. */
  function Split(s: string, sep: string): (r: seq<string>)
    requires |sep| > 0
    ensures |r| >= 1 && Join(r, sep) == s
    decreases |s|
  {
    match Find(s, sep)
    case None => [s]
    case Some(i) =>
      var rest := Split(s[i + |sep|..], sep);
      JoinCons(s[..i], rest, sep);
      assert s == s[..i] + sep + s[i + |sep|..] by {
        assert s[i..i + |sep|] == sep;
        assert s == s[..i] + s[i..i + |sep|] + s[i + |sep|..];
      }
      [s[..i]] + rest
  }

  /** Splitting pieces in which the separator's first character never
      occurs, joined by the separator, gives back the pieces. */
  lemma {:induction false} SplitOfJoin(ws: seq<string>, sep: string)
    requires |sep| > 0 && |ws| >= 1
    requires forall i :: 0 <= i < |ws| ==> sep[0] !in ws[i]
    ensures Split(Join(ws, sep), sep) == ws
    decreases |ws|
  {
    if |ws| == 1 {
      FindAbsent(ws[0], sep);
    } else {
      var rest := Join(ws[1..], sep);
      assert Join(ws, sep) == ws[0] + sep + rest;
      SplitStep(ws[0], sep, rest);
      SplitOfJoin(ws[1..], sep);
      assert [ws[0]] + ws[1..] == ws;
    }
  }

  /** A piece free of the separator's first character, the separator, and
      a rest split into the piece followed by the pieces of the rest. */
  lemma SplitStep(w: string, sep: string, rest: string)
    requires |sep| > 0 && sep[0] !in w
    ensures Split(w + sep + rest, sep) == [w] + Split(rest, sep)
  {
    FindAfter(w, sep, rest);
    var s := w + sep + rest;
    assert s[..|w|] == w;
    assert s[|w| + |sep|..] == rest;
  }

  /** Go's `strings.HasPrefix`. */
  predicate HasPrefix(s: string, p: string) {
    |p| <= |s| && s[..|p|] == p
  }

  /** Go's `strings.TrimSuffix`. */
  function TrimSuffix(s: string, suf: string): (r: string)
    ensures r + (if |suf| <= |s| && s[|s| - |suf|..] == suf then suf else "") == s
  {
    if |suf| <= |s| && s[|s| - |suf|..] == suf then s[..|s| - |suf|] else s
  }

  /** Drop leading characters satisfying `cut`. */
  function TrimLeftFunc(s: string, cut: char -> bool): (r: string)
    ensures |r| <= |s| && r == s[|s| - |r|..]
    ensures r == [] || !cut(r[0])
    ensures AllSep(s[..|s| - |r|], cut)
    decreases |s|
  {
    if s != [] && cut(s[0]) then TrimLeftFunc(s[1..], cut) else s
  }

  /** Drop trailing characters satisfying `cut`. */
  function TrimRightFunc(s: string, cut: char -> bool): (r: string)
    ensures |r| <= |s| && r == s[..|r|]
    ensures r == [] || !cut(r[|r| - 1])
    ensures AllSep(s[|r|..], cut)
    decreases |s|
  {
    if s != [] && cut(s[|s| - 1]) then TrimRightFunc(s[..|s| - 1], cut) else s
  }

  /** Go's `strings.TrimSpace`. */
  function TrimSpace(s: string): string {
    TrimRightFunc(TrimLeftFunc(s, GoSpace), GoSpace)
  }

  /** Go's `strings.TrimFunc`, the shape of `strings.Trim` with a cut set. */
  function TrimFunc(s: string, cut: char -> bool): string {
    TrimRightFunc(TrimLeftFunc(s, cut), cut)
  }

  /** One line taken from a text stream: the line, what remains, and whether
      the stream ended before a newline was found. */
  datatype Line = Line(text: string, rest: string, eof: bool)

  /** Go's `bufio.Reader.ReadString('\n')` (and `ReadBytes('\n')`) over the
      unread text: everything up to and including the first newline; when
      there is none, all that is left, flagged with `io.EOF`. */
  function ReadLine(s: string): (r: Line)
    ensures r.text + r.rest == s
    ensures r.eof <==> '\n' !in s
    ensures r.eof ==> r.rest == []
    ensures !r.eof ==> r.text != [] && r.text[|r.text| - 1] == '\n' && '\n' !in r.text[..|r.text| - 1]
    decreases |s|
  {
    if s == [] then Line([], [], true)
    else if s[0] == '\n' then Line(['\n'], s[1..], false)
    else
      var r := ReadLine(s[1..]);
      LineCons(s, r.text, r.rest, r.eof);
      Line([s[0]] + r.text, r.rest, r.eof)
  }

  /** The step of `ReadLine` past a first character that is not a newline. */
  lemma LineCons(s: string, text: string, rest: string, eof: bool)
    requires s != [] && s[0] != '\n'
    requires text + rest == s[1..] && (eof <==> '\n' !in s[1..]) && (eof ==> rest == [])
    requires !eof ==> text != [] && text[|text| - 1] == '\n' && '\n' !in text[..|text| - 1]
    ensures [s[0]] + text + rest == s && (eof <==> '\n' !in s)
    ensures !eof ==> ([s[0]] + text)[|text|] == '\n' && '\n' !in ([s[0]] + text)[..|text|]
  {
    assert s == [s[0]] + s[1..];
    if !eof {
      assert ([s[0]] + text)[..|text|] == [s[0]] + text[..|text| - 1];
    }
  }

  /** Reading a newline-terminated line gives back that line and the rest. */
  lemma ReadLineOf(l: string, rest: string)
    requires '\n' !in l
    ensures ReadLine(l + "\n" + rest) == Line(l + "\n", rest, false)
  {
    var s := l + "\n" + rest;
    var r := ReadLine(s);
    assert s[|l|] == '\n';
    var n := |r.text| - 1;
    assert s[..|r.text|] == r.text;
    if n < |l| {
      assert false;
    } else if n > |l| {
      assert false;
    }
    assert r.text == s[..|l| + 1] == l + "\n";
    assert r.rest == s[|l| + 1..] == rest;
  }


  /** The source's line-ending strip: everything but a final newline. */
  function ChompNewline(s: string): (r: string)
    ensures r == s || r + "\n" == s
  {
    if s != [] && s[|s| - 1] == '\n' then s[..|s| - 1] else s
  }

  /** Number of bytes of the UTF-8 encoding: Go's `len` on a string. */
  function Utf8Len(s: string): (n: nat)
    ensures |s| <= n <= 4 * |s|
  {
    if s == [] then 0
    else (if s[0] as int < 0x80 then 1 else if s[0] as int < 0x800 then 2
          else if s[0] as int < 0x10000 then 3 else 4) + Utf8Len(s[1..])
  }

  /** `n` copies of `c`. */
  function Repeat(c: char, n: nat): (r: string)
    ensures |r| == n && forall i :: 0 <= i < n ==> r[i] == c
  {
    if n == 0 then [] else [c] + Repeat(c, n - 1)
  }

  /** A `fmt` width: `s` right-aligned in `w` characters (Go counts a width
      in runes, as the model's characters are). */
  function PadLeft(s: string, w: nat): (r: string)
    ensures |r| == if |s| >= w then |s| else w
    ensures |s| <= |r|
  {
    if |s| >= w then s else Repeat(' ', w - |s|) + s
  }

  /** A right-aligned text is blanks, as many as the width leaves, followed
      by the text. */
  lemma PadLeftSplit(s: string, w: nat)
    ensures PadLeft(s, w) == Repeat(' ', |PadLeft(s, w)| - |s|) + s
  {
  }

  /** A left-aligned text: `s` followed by blanks up to `w` characters. */
  function PadRight(s: string, w: nat): (r: string)
    ensures |r| == if |s| >= w then |s| else w
    ensures |s| <= |r|
  {
    if |s| >= w then s else s + Repeat(' ', w - |s|)
  }

  /** A left-aligned text is the text followed by blanks, as many as the
      width leaves. */
  lemma PadRightSplit(s: string, w: nat)
    ensures PadRight(s, w) == s + Repeat(' ', |PadRight(s, w)| - |s|)
  {
  }
}
