/**
 * HTML escaping of user text, as the preview applies it to every value it
 * shows: five global replacements applied one after the other, ampersand
 * first.
 */
module Escape {

  /** One global replacement: every occurrence of `c` in `s` becomes `rep`. */
  function ReplaceAll(s: string, c: char, rep: string): string
  {
    if s == [] then [] else (if s[0] == c then rep else [s[0]]) + ReplaceAll(s[1..], c, rep)
  }

  /** A replacement stage: the character to find and the text put in its place. */
  datatype Stage = Stage(find: char, rep: string)

  /** The replacements of the escaping helper, in the order it applies them. */
  function Stages(): seq<Stage>
  {
    [Stage('&', "&amp;"), Stage('<', "&lt;"), Stage('>', "&gt;"), Stage('"', "&quot;"), Stage('\'', "&#039;")]
  }

  /** Applies the stages `rs` to `s`, first stage first. */
  function Apply(s: string, rs: seq<Stage>): string
    decreases rs
  {
    if rs == [] then s else Apply(ReplaceAll(s, rs[0].find, rs[0].rep), rs[1..])
  }

  /** The escaping helper: empty input gives the empty string, otherwise the replacement chain. */
  function EscapeHtml(s: string): string
  {
    if s == [] then [] else Apply(s, Stages())
  }

  /** The five characters that escaping replaces. */
  predicate Special(c: char)
  {
    c == '&' || c == '<' || c == '>' || c == '"' || c == '\''
  }

  /** What a single character becomes once escaped. */
  function Entity(c: char): string
  {
    match c
    case '&' => "&amp;"
    case '<' => "&lt;"
    case '>' => "&gt;"
    case '"' => "&quot;"
    case '\'' => "&#039;"
    case _ => [c]
  }

  /** Reference definition: escape character by character. */
  function EscapeEach(s: string): string
  {
    if s == [] then [] else Entity(s[0]) + EscapeEach(s[1..])
  }

  /** Text that can stand as character data or inside a quoted attribute. */
  predicate Safe(s: string)
  {
    '<' !in s && '>' !in s && '"' !in s && '\'' !in s
  }

  /** Decodes the five entities that escaping introduces; any other character stands for itself. */
  function Unescape(s: string): string
  {
    if s == [] then []
    else if |s| >= 5 && s[..5] == "&amp;" then "&" + Unescape(s[5..])
    else if |s| >= 4 && s[..4] == "&lt;" then "<" + Unescape(s[4..])
    else if |s| >= 4 && s[..4] == "&gt;" then ">" + Unescape(s[4..])
    else if |s| >= 6 && s[..6] == "&quot;" then "\"" + Unescape(s[6..])
    else if |s| >= 6 && s[..6] == "&#039;" then "'" + Unescape(s[6..])
    else [s[0]] + Unescape(s[1..])
  }

  lemma {:induction false} ReplaceAllAppend(a: string, b: string, c: char, rep: string)
    ensures ReplaceAll(a + b, c, rep) == ReplaceAll(a, c, rep) + ReplaceAll(b, c, rep)
  {
    if a != [] {
      assert (a + b)[1..] == a[1..] + b;
      ReplaceAllAppend(a[1..], b, c, rep);
    } else {
      assert a + b == b;
    }
  }

  lemma {:induction false} ReplaceAbsent(s: string, c: char, rep: string)
    requires c !in s
    ensures ReplaceAll(s, c, rep) == s
  {
    if s != [] {
      assert s == [s[0]] + s[1..];
      ReplaceAbsent(s[1..], c, rep);
    }
  }

  lemma ReplaceOne(x: char, c: char, rep: string)
    ensures ReplaceAll([x], c, rep) == if x == c then rep else [x]
  {
    assert [x][1..] == [];
  }

  /** Each stage's replacement text holds none of the characters that later stages look for. */
  predicate NoRescan(rs: seq<Stage>)
  {
    forall i, j :: 0 <= i < j < |rs| ==> rs[j].find !in rs[i].rep
  }

  /** The first replacement for `c` among the stages, or `c` itself. */
  function Lookup(c: char, rs: seq<Stage>): string
  {
    if rs == [] then [c] else if rs[0].find == c then rs[0].rep else Lookup(c, rs[1..])
  }

  lemma {:induction false} ApplyAppend(a: string, b: string, rs: seq<Stage>)
    ensures Apply(a + b, rs) == Apply(a, rs) + Apply(b, rs)
    decreases rs
  {
    if rs != [] {
      ReplaceAllAppend(a, b, rs[0].find, rs[0].rep);
      ApplyAppend(ReplaceAll(a, rs[0].find, rs[0].rep), ReplaceAll(b, rs[0].find, rs[0].rep), rs[1..]);
    }
  }

  lemma {:induction false} ApplyAbsent(t: string, rs: seq<Stage>)
    requires forall i :: 0 <= i < |rs| ==> rs[i].find !in t
    ensures Apply(t, rs) == t
  {
    if rs != [] {
      ReplaceAbsent(t, rs[0].find, rs[0].rep);
      ApplyAbsent(t, rs[1..]);
    }
  }

  /** On one character, the stages act as the lookup of that character, provided no stage rescans. */
  lemma {:induction false} ApplyOnChar(c: char, rs: seq<Stage>)
    requires NoRescan(rs)
    ensures Apply([c], rs) == Lookup(c, rs)
  {
    if rs != [] {
      ReplaceOne(c, rs[0].find, rs[0].rep);
      if rs[0].find == c {
        assert forall j :: 0 <= j < |rs[1..]| ==> rs[1..][j].find !in rs[0].rep by {
          forall j | 0 <= j < |rs[1..]| ensures rs[1..][j].find !in rs[0].rep {
            assert rs[1..][j] == rs[j + 1];
          }
        }
        ApplyAbsent(rs[0].rep, rs[1..]);
      } else {
        assert NoRescan(rs[1..]) by {
          forall i, j | 0 <= i < j < |rs[1..]| ensures rs[1..][j].find !in rs[1..][i].rep {
            assert rs[1..][j] == rs[j + 1] && rs[1..][i] == rs[i + 1];
          }
        }
        ApplyOnChar(c, rs[1..]);
      }
    }
  }

  /** Ampersand first: no replacement text contains a character a later stage replaces. */
  lemma StagesNoRescan()
    ensures NoRescan(Stages())
  {
  }

  lemma LookupIsEntity(c: char)
    ensures Lookup(c, Stages()) == Entity(c)
  {
    var rs := Stages();
    if c != '&' {
      assert Lookup(c, rs) == Lookup(c, rs[1..]);
      if c != '<' {
        assert Lookup(c, rs[1..]) == Lookup(c, rs[2..]);
        if c != '>' {
          assert Lookup(c, rs[2..]) == Lookup(c, rs[3..]);
          if c != '"' {
            assert Lookup(c, rs[3..]) == Lookup(c, rs[4..]);
            if c != '\'' {
              assert Lookup(c, rs[4..]) == Lookup(c, rs[5..]);
              assert rs[5..] == [];
            }
          }
        }
      }
    }
  }

  /** The chained replacements escape each character independently. */
  lemma {:induction false} ApplyIsPerCharacter(s: string)
    ensures Apply(s, Stages()) == EscapeEach(s)
  {
    if s == [] {
      ApplyAbsent(s, Stages());
    } else {
      assert s == [s[0]] + s[1..];
      ApplyAppend([s[0]], s[1..], Stages());
      StagesNoRescan();
      ApplyOnChar(s[0], Stages());
      LookupIsEntity(s[0]);
      ApplyIsPerCharacter(s[1..]);
    }
  }

  /** The helper's replacement chain equals escaping each character on its own. */
  lemma EscapeHtmlIsPerCharacter(s: string)
    ensures EscapeHtml(s) == EscapeEach(s)
  {
    ApplyIsPerCharacter(s);
  }

  lemma SafeAppend(a: string, b: string)
    ensures Safe(a + b) <==> Safe(a) && Safe(b)
  {
  }

  lemma EntitySafe(c: char)
    ensures Safe(Entity(c)) && |Entity(c)| >= 1
  {
    match c
    case '&' =>
    case '<' =>
    case '>' =>
    case '"' =>
    case '\'' =>
    case _ => assert Entity(c) == [c];
  }

  lemma {:induction false} EscapeEachSafe(s: string)
    ensures Safe(EscapeEach(s))
    ensures |EscapeEach(s)| >= |s|
  {
    if s != [] {
      EscapeEachSafe(s[1..]);
      EntitySafe(s[0]);
      SafeAppend(Entity(s[0]), EscapeEach(s[1..]));
    }
  }

  /** Escaped text holds no raw `<`, `>`, `"` or `'`, and is never shorter than its input. */
  lemma EscapeHtmlSafe(s: string)
    ensures Safe(EscapeHtml(s))
    ensures |EscapeHtml(s)| >= |s|
  {
    EscapeHtmlIsPerCharacter(s);
    EscapeEachSafe(s);
  }

  /** Escaping gives the empty string exactly for the empty input. */
  lemma EscapeHtmlEmpty(s: string)
    ensures EscapeHtml(s) == [] <==> s == []
  {
    EscapeHtmlSafe(s);
  }

  /** Text whose first character is not `&` starts no entity, so it decodes character by character. */
  lemma UnescapePlain(c: char, rest: string)
    requires c != '&'
    ensures Unescape([c] + rest) == [c] + Unescape(rest)
  {
    var t := [c] + rest;
    assert t[1..] == rest;
    assert |t| >= 4 ==> t[..4][0] == c;
    assert |t| >= 5 ==> t[..5][0] == c;
    assert |t| >= 6 ==> t[..6][0] == c;
  }

  /** Decodes an entity at the front of `t`. */
  lemma UnescapeAt(t: string, e: string, c: char, rest: string)
    requires t == e + rest
    requires (e, c) in {("&amp;", '&'), ("&lt;", '<'), ("&gt;", '>'), ("&quot;", '"'), ("&#039;", '\'')}
    ensures Unescape(t) == [c] + Unescape(rest)
  {
    assert t[..|e|] == e && t[|e|..] == rest;
    assert t[1] == e[1];
  }

  /** Decoding the entity of `c` in front of any text gives `c` back in front of that text's decoding. */
  lemma UnescapeEntity(c: char, rest: string)
    ensures Unescape(Entity(c) + rest) == [c] + Unescape(rest)
  {
    if Special(c) {
      UnescapeAt(Entity(c) + rest, Entity(c), c, rest);
    } else {
      UnescapePlain(c, rest);
    }
  }

  lemma {:induction false} UnescapeEscapeEach(s: string)
    ensures Unescape(EscapeEach(s)) == s
  {
    if s != [] {
      UnescapeEntity(s[0], EscapeEach(s[1..]));
      UnescapeEscapeEach(s[1..]);
      assert s == [s[0]] + s[1..];
    }
  }

  /** Escaping loses no information: decoding the entities gives the input back. */
  lemma EscapeRoundTrip(s: string)
    ensures Unescape(EscapeHtml(s)) == s
  {
    EscapeHtmlIsPerCharacter(s);
    UnescapeEscapeEach(s);
  }

  /** Hence two different texts never escape to the same markup. */
  lemma EscapeInjective(s: string, t: string)
    requires EscapeHtml(s) == EscapeHtml(t)
    ensures s == t
  {
    EscapeRoundTrip(s);
    EscapeRoundTrip(t);
  }

  lemma {:induction false} EscapeEachAppend(a: string, b: string)
    ensures EscapeEach(a + b) == EscapeEach(a) + EscapeEach(b)
  {
    if a == [] {
      assert a + b == b;
    } else {
      assert (a + b)[1..] == a[1..] + b;
      EscapeEachAppend(a[1..], b);
    }
  }

  /** Escaping distributes over concatenation. */
  lemma EscapeHtmlAppend(a: string, b: string)
    ensures EscapeHtml(a + b) == EscapeHtml(a) + EscapeHtml(b)
  {
    EscapeHtmlIsPerCharacter(a);
    EscapeHtmlIsPerCharacter(b);
    EscapeHtmlIsPerCharacter(a + b);
    EscapeEachAppend(a, b);
  }

  /** Text with nothing to escape is left as it is. */
  lemma {:induction false} EscapeEachPlain(s: string)
    requires forall i :: 0 <= i < |s| ==> !Special(s[i])
    ensures EscapeEach(s) == s
  {
    if s != [] {
      assert s == [s[0]] + s[1..];
      EscapeEachPlain(s[1..]);
    }
  }

  /** Escaping is not idempotent: the ampersand of an entity is escaped again. */
  lemma EscapeNotIdempotent(amp: string)
    requires amp == "&"
    ensures EscapeHtml(amp) == "&amp;"
    ensures EscapeHtml(EscapeHtml(amp)) == "&amp;amp;"
  {
    EscapeHtmlIsPerCharacter(amp);
    assert EscapeEach(amp) == Entity('&') + EscapeEach([]);
    var tail := "amp;";
    EscapeEachPlain(tail);
    EscapeHtmlAppend(amp, tail);
    assert amp + tail == "&amp;";
    EscapeHtmlIsPerCharacter(tail);
  }
}
