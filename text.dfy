/**
 * The string helpers of the form: trimming a possibly missing value and
 * parsing a comma-separated list such as the skills or hobbies field.
 */
module Text {
  import opened Wrappers

  /**
   * The characters that ECMAScript's String.prototype.trim removes: the
   * WhiteSpace set (tab, vertical tab, form feed, no-break space, byte order
   * mark and the space separators) and the LineTerminator set.
   */
  predicate IsSpace(c: char)
  {
    c == ' ' || c == '\t' || c == '\n' || c == '\r' || c == '\U{000B}' || c == '\U{000C}'
    || c == '\U{00A0}' || c == '\U{1680}' || ('\U{2000}' <= c <= '\U{200A}')
    || c == '\U{2028}' || c == '\U{2029}' || c == '\U{202F}' || c == '\U{205F}'
    || c == '\U{3000}' || c == '\U{FEFF}'
  }

  /** Drops leading whitespace. */
  function TrimStart(s: string): (r: string)
    ensures |r| <= |s|
  {
    if s != [] && IsSpace(s[0]) then TrimStart(s[1..]) else s
  }

  /** TrimStart keeps a suffix. */
  lemma {:induction false} TrimStartSuffix(s: string)
    ensures var r := TrimStart(s); r == s[|s| - |r|..]
  {
    if s != [] && IsSpace(s[0]) {
      TrimStartSuffix(s[1..]);
    }
  }

  /** What TrimStart drops is whitespace, and what it keeps does not start with whitespace. */
  lemma {:induction false} TrimStartSpaces(s: string)
    ensures var r := TrimStart(s);
      && (r == [] || !IsSpace(r[0]))
      && (forall k :: 0 <= k < |s| - |r| ==> IsSpace(s[k]))
  {
    if s != [] && IsSpace(s[0]) {
      TrimStartSpaces(s[1..]);
      var r := TrimStart(s);
      forall k | 1 <= k < |s| - |r| ensures IsSpace(s[k]) {
        assert s[k] == s[1..][k - 1];
      }
    }
  }

  /** Drops trailing whitespace. */
  function TrimEnd(s: string): (r: string)
    ensures |r| <= |s|
  {
    if s != [] && IsSpace(s[|s| - 1]) then TrimEnd(s[..|s| - 1]) else s
  }

  /** TrimEnd keeps a prefix. */
  lemma {:induction false} TrimEndPrefix(s: string)
    ensures var r := TrimEnd(s); r == s[..|r|]
  {
    if s != [] && IsSpace(s[|s| - 1]) {
      TrimEndPrefix(s[..|s| - 1]);
    }
  }

  /** What TrimEnd drops is whitespace, and what it keeps does not end with whitespace. */
  lemma {:induction false} TrimEndSpaces(s: string)
    ensures var r := TrimEnd(s);
      && (r == [] || !IsSpace(r[|r| - 1]))
      && (forall k :: |r| <= k < |s| ==> IsSpace(s[k]))
  {
    if s != [] && IsSpace(s[|s| - 1]) {
      TrimEndSpaces(s[..|s| - 1]);
      var r := TrimEnd(s);
      forall k | |r| <= k < |s| - 1 ensures IsSpace(s[k]) {
        assert s[k] == s[..|s| - 1][k];
      }
    }
  }

  /** Drops whitespace at both ends. */
  function Trim(s: string): (r: string)
    ensures |r| <= |s|
  {
    TrimEnd(TrimStart(s))
  }

  /** A trimmed text neither starts nor ends with whitespace. */
  lemma TrimEnds(s: string)
    ensures Trim(s) == [] || (!IsSpace(Trim(s)[0]) && !IsSpace(Trim(s)[|Trim(s)| - 1]))
  {
    var t := TrimStart(s);
    TrimStartSpaces(s);
    TrimEndSpaces(t);
    TrimEndPrefix(t);
    var r := TrimEnd(t);
    assert r != [] ==> r[0] == t[0];
  }

  /** What trimming keeps: the slice of `s` left once the whitespace before it and after it is removed. */
  lemma TrimSlice(s: string)
    ensures var r, i := Trim(s), |s| - |TrimStart(s)|;
      && i + |r| <= |s| && r == s[i..i + |r|]
      && (forall k :: 0 <= k < i ==> IsSpace(s[k]))
      && (forall k :: i + |r| <= k < |s| ==> IsSpace(s[k]))
  {
    TrimKeepsSlice(s);
    TrimStartSpaces(s);
    TrimDropsTrailing(s);
  }

  lemma TrimKeepsSlice(s: string)
    ensures var r, i := Trim(s), |s| - |TrimStart(s)|;
      i + |r| <= |s| && r == s[i..i + |r|]
  {
    var t := TrimStart(s);
    var r := TrimEnd(t);
    var i := |s| - |t|;
    TrimStartSuffix(s);
    TrimEndPrefix(t);
    assert t == s[i..];
    assert r == s[i..i + |r|] by {
      assert r == t[..|r|];
    }
  }

  lemma TrimDropsTrailing(s: string)
    ensures var r, i := Trim(s), |s| - |TrimStart(s)|;
      i + |r| <= |s| && forall k :: i + |r| <= k < |s| ==> IsSpace(s[k])
  {
    var t := TrimStart(s);
    var r := TrimEnd(t);
    var i := |s| - |t|;
    TrimEndSpaces(t);
    TrimStartSuffix(s);
    assert t == s[i..];
    forall k | i + |r| <= k < |s| ensures IsSpace(s[k]) {
      assert s[k] == t[k - i];
    }
  }

  /** The page's `trim` helper: a missing value reads as the empty string, then it is trimmed. */
  function TrimValue(v: Option<string>): string
  {
    Trim(v.GetOr(""))
  }

  /** Trimming twice is trimming once. */
  lemma TrimIdempotent(s: string)
    ensures Trim(Trim(s)) == Trim(s)
  {
    var t := Trim(s);
    TrimEnds(s);
    assert TrimStart(t) == t;
    assert TrimEnd(t) == t;
  }

  /** Trimming leaves nothing exactly when the text is all whitespace. */
  lemma TrimEmpty(s: string)
    ensures Trim(s) == [] <==> forall k :: 0 <= k < |s| ==> IsSpace(s[k])
  {
    TrimSlice(s);
    TrimEnds(s);
    var r, i := Trim(s), |s| - |TrimStart(s)|;
    assert r != [] ==> r[0] == s[i];
  }

  /** Splits on every comma, like JavaScript's `split(',')`: k commas give k + 1 pieces. */
  function Split(s: string): (parts: seq<string>)
    ensures |parts| >= 1
    ensures forall i :: 0 <= i < |parts| ==> ',' !in parts[i]
  {
    if s == [] then [[]]
    else
      var rest := Split(s[1..]);
      if s[0] == ',' then [[]] + rest else [[s[0]] + rest[0]] + rest[1..]
  }

  /** Glues pieces back together with commas between them. */
  function Join(parts: seq<string>): string
  {
    if parts == [] then [] else if |parts| == 1 then parts[0] else parts[0] + "," + Join(parts[1..])
  }

  /** Splitting loses nothing: joining the pieces gives the text back. */
  lemma {:induction false} JoinSplit(s: string)
    ensures Join(Split(s)) == s
  {
    if s != [] {
      var rest := Split(s[1..]);
      JoinSplit(s[1..]);
      if s[0] == ',' {
        assert Join([[]] + rest) == [] + "," + Join(rest);
      } else {
        var parts := Split(s);
        assert parts[0] == [s[0]] + rest[0] && parts[1..] == rest[1..];
        if |rest| == 1 {
          assert Join(parts) == [s[0]] + rest[0];
        } else {
          assert Join(rest) == rest[0] + "," + Join(rest[1..]);
          assert Join(parts) == ([s[0]] + rest[0]) + "," + Join(rest[1..]);
        }
      }
      assert s == [s[0]] + s[1..];
    }
  }

  /** A comma splits the text into the pieces before it and the pieces after it. */
  lemma {:induction false} SplitAtComma(a: string, b: string)
    ensures Split(a + "," + b) == Split(a) + Split(b)
  {
    if a == [] {
      assert a + "," + b == [','] + b;
      assert ([','] + b)[1..] == b;
    } else {
      assert (a + "," + b)[0] == a[0];
      assert (a + "," + b)[1..] == a[1..] + "," + b;
      SplitAtComma(a[1..], b);
    }
  }

  /** Trims every piece and keeps the ones that are not empty, in order. */
  function TrimNonEmpty(parts: seq<string>): seq<string>
  {
    if parts == [] then []
    else (if Trim(parts[0]) == [] then [] else [Trim(parts[0])]) + TrimNonEmpty(parts[1..])
  }

  /** An item of the list: not empty, without a comma, with no whitespace at either end. */
  predicate IsItem(t: string)
  {
    t != [] && ',' !in t && Trim(t) == t
  }

  /**
   * The list parse of the skills and hobbies fields: an empty field gives no
   * items; otherwise the comma-separated pieces, each trimmed, empty ones dropped.
   */
  function ParseList(raw: string): (items: seq<string>)
    ensures raw == [] ==> items == []
  {
    if raw == [] then [] else TrimNonEmpty(Split(raw))
  }

  /** Every item of a parsed list is non-empty, comma-free and trimmed, and there are no more items than pieces. */
  lemma ParseListItems(raw: string)
    ensures forall i :: 0 <= i < |ParseList(raw)| ==> IsItem(ParseList(raw)[i])
    ensures |ParseList(raw)| <= |Split(raw)|
  {
    TrimNonEmptyItems(Split(raw));
  }

  /** A slice holds no character its whole does not hold. */
  lemma SliceLacks(s: string, i: nat, j: nat, c: char)
    requires i <= j <= |s| && c !in s
    ensures c !in s[i..j]
  {
  }

  /** Trimming a comma-free piece gives an item, unless it leaves nothing. */
  lemma TrimPiece(p: string)
    requires ',' !in p
    ensures Trim(p) == [] || IsItem(Trim(p))
  {
    TrimIdempotent(p);
    TrimSlice(p);
    var i := |p| - |TrimStart(p)|;
    SliceLacks(p, i, i + |Trim(p)|, ',');
  }

  /** Every piece kept from comma-free pieces is an item. */
  lemma {:induction false} TrimNonEmptyItems(parts: seq<string>)
    requires forall i :: 0 <= i < |parts| ==> ',' !in parts[i]
    ensures |TrimNonEmpty(parts)| <= |parts|
    ensures forall i :: 0 <= i < |TrimNonEmpty(parts)| ==> IsItem(TrimNonEmpty(parts)[i])
  {
    if parts != [] {
      TrimPiece(parts[0]);
      TrimNonEmptyItems(parts[1..]);
    }
  }

  lemma {:induction false} TrimNonEmptyAppend(p: seq<string>, q: seq<string>)
    ensures TrimNonEmpty(p + q) == TrimNonEmpty(p) + TrimNonEmpty(q)
  {
    if p == [] {
      assert p + q == q;
    } else {
      var t := Trim(p[0]);
      var head := if t == [] then [] else [t];
      var pq, rest := p + q, p[1..] + q;
      assert pq[0] == p[0] && pq[1..] == rest;
      assert TrimNonEmpty(pq) == head + TrimNonEmpty(rest);
      TrimNonEmptyAppend(p[1..], q);
    }
  }

  /**
   * The parse is a homomorphism over commas: the items of `a,b` are the items
   * of `a` followed by the items of `b`, order and duplicates kept.
   */
  lemma ParseListAtComma(a: string, b: string)
    ensures ParseList(a + "," + b) == ParseList(a) + ParseList(b)
  {
    SplitAtComma(a, b);
    TrimNonEmptyAppend(Split(a), Split(b));
    assert a == [] ==> Split(a) == [[]];
    assert b == [] ==> Split(b) == [[]];
  }

  /** A field with no comma gives its trimmed text as the only item, or nothing when it is blank. */
  lemma ParseListSingle(raw: string)
    requires ',' !in raw
    ensures ParseList(raw) == if Trim(raw) == [] then [] else [Trim(raw)]
  {
    if raw != [] {
      NoCommaSplit(raw);
      assert TrimNonEmpty([raw]) == (if Trim(raw) == [] then [] else [Trim(raw)]) + TrimNonEmpty([]);
    }
  }

  lemma {:induction false} NoCommaSplit(s: string)
    requires ',' !in s
    ensures Split(s) == [s]
  {
    if s != [] {
      NoCommaSplit(s[1..]);
      assert s == [s[0]] + s[1..];
    }
  }

  /** Every character of a piece comes from the split text. */
  lemma {:induction false} SplitChars(s: string)
    ensures forall i, c :: 0 <= i < |Split(s)| && c in Split(s)[i] ==> c in s
  {
    if s != [] {
      SplitChars(s[1..]);
      var rest := Split(s[1..]);
      var parts := Split(s);
      assert s == [s[0]] + s[1..];
      forall i, c | 0 <= i < |parts| && c in parts[i] ensures c in s {
        if s[0] != ',' && i == 0 {
          assert parts[0] == [s[0]] + rest[0];
          assert c == s[0] || c in rest[0];
        } else if s[0] != ',' {
          assert parts[i] == rest[i];
        } else {
          assert i > 0 && parts[i] == rest[i - 1];
        }
      }
    }
  }

  lemma {:induction false} TrimNonEmptyChars(parts: seq<string>, s: string)
    requires forall i, c :: 0 <= i < |parts| && c in parts[i] ==> c in s
    ensures forall i, c :: 0 <= i < |TrimNonEmpty(parts)| && c in TrimNonEmpty(parts)[i] ==> c in s
  {
    if parts != [] {
      TrimNonEmptyChars(parts[1..], s);
      TrimSlice(parts[0]);
      var j := |parts[0]| - |TrimStart(parts[0])|;
      var t := Trim(parts[0]);
      assert forall c :: c in t ==> c in parts[0] by {
        assert t == parts[0][j..j + |t|];
      }
      var r := TrimNonEmpty(parts);
      var tail := TrimNonEmpty(parts[1..]);
      assert r == (if t == [] then [] else [t]) + tail;
    }
  }

  /** The items of a list use only characters of the raw field. */
  lemma ParseListChars(raw: string)
    ensures forall i, c :: 0 <= i < |ParseList(raw)| && c in ParseList(raw)[i] ==> c in raw
  {
    if raw != [] {
      SplitChars(raw);
      TrimNonEmptyChars(Split(raw), raw);
    }
  }

  /** Text with no whitespace at either end is its own trim. */
  lemma TrimBordered(s: string)
    requires s != [] && !IsSpace(s[0]) && !IsSpace(s[|s| - 1])
    ensures Trim(s) == s
  {
  }

  /** A leading whitespace character is dropped by trimming. */
  lemma TrimLeading(s: string)
    requires s != [] && IsSpace(s[0])
    ensures Trim(s) == Trim(s[1..])
  {
  }

  /** A comma-free word with no whitespace at its ends is a list of one item. */
  lemma ParseListWord(w: string)
    requires w != [] && ',' !in w && !IsSpace(w[0]) && !IsSpace(w[|w| - 1])
    ensures ParseList(w) == [w]
  {
    TrimBordered(w);
    ParseListSingle(w);
  }

  /** A single leading space before a word is dropped. */
  lemma ParseListSpacedWord(sw: string, w: string)
    requires sw == [' '] + w
    requires w != [] && ',' !in w && !IsSpace(w[0]) && !IsSpace(w[|w| - 1])
    ensures ParseList(sw) == [w]
  {
    TrimBordered(w);
    TrimLeading(sw);
    assert sw[1..] == w;
    ParseListSingle(sw);
  }

  lemma ParseListBlank(blank: string)
    requires blank == " "
    ensures ParseList(blank) == []
  {
    TrimLeading(blank);
    assert blank[1..] == [];
    ParseListSingle(blank);
  }

  /** Blank pieces are dropped, while order and duplicates are kept. */
  lemma ParseListExample(input: string, python: string, go: string)
    requires input == "Python, , Go,Go" && python == "Python" && go == "Go"
    ensures ParseList(input) == [python, go, go]
  {
    var middle := " , Go,Go";
    assert input == python + "," + middle;
    ParseListPython(python);
    ParseListMiddle(middle, go);
    ParseListAtComma(python, middle);
  }

  lemma ParseListMiddle(middle: string, go: string)
    requires middle == " , Go,Go" && go == "Go"
    ensures ParseList(middle) == [go, go]
  {
    var blank, tail := " ", " Go,Go";
    assert middle == blank + "," + tail;
    ParseListBlank(blank);
    ParseListTail(tail, go);
    ParseListAtComma(blank, tail);
  }

  lemma ParseListTail(tail: string, go: string)
    requires tail == " Go,Go" && go == "Go"
    ensures ParseList(tail) == [go, go]
  {
    var go1 := " Go";
    assert tail == go1 + "," + go;
    ParseListGo(go1, go);
    ParseListAtComma(go1, go);
  }

  lemma ParseListPython(python: string)
    requires python == "Python"
    ensures ParseList(python) == [python]
  {
    ParseListWord(python);
  }

  lemma ParseListGo(go1: string, go: string)
    requires go1 == " Go" && go == "Go"
    ensures ParseList(go1) == [go] && ParseList(go) == [go]
  {
    ParseListSpacedWord(go1, go);
    ParseListWord(go);
  }
}
