/**
 * The HTML escaper `encode` that the preview page applies to its title,
 * description, image and url: five global single-character replacements run
 * one after another, `&` first. Beside it stand a per-character reference
 * definition and a decoder, and the lemmas tie the three together.
 */
module HtmlEscape {
  import opened JsValues

  /** The characters `encode` rewrites. */
  predicate IsSpecial(c: char) {
    c == '&' || c == '<' || c == '>' || c == '"' || c == '\''
  }

  /** True when `p` is a prefix of `s`. */
  predicate StartsWith(s: string, p: string) {
    |p| <= |s| && s[..|p|] == p
  }

  /** True when one of the five entities `encode` writes begins at index `i` of `s`. */
  predicate EntityAt(s: string, i: nat) {
    i <= |s| &&
    (StartsWith(s[i..], "&amp;") || StartsWith(s[i..], "&lt;") || StartsWith(s[i..], "&gt;") ||
     StartsWith(s[i..], "&quot;") || StartsWith(s[i..], "&#039;"))
  }

  /**
   * `s.replace(/c/g, entity)`: every occurrence of `c`, scanning left to
   * right, is replaced by `entity`; the rest of `s` is kept in order.
   */
  function ReplaceAll(s: string, c: char, entity: string): (r: string)
    ensures c !in s ==> r == s
    ensures c !in entity ==> c !in r
    ensures forall x | x in r :: x in entity || x in s
  {
    if s == [] then []
    else (if s[0] == c then entity else [s[0]]) + ReplaceAll(s[1..], c, entity)
  }

  /** The chain of replacements in the order the worker runs them. */
  function ReplaceChain(s: string): (r: string)
    ensures '<' !in r && '>' !in r && '"' !in r && '\'' !in r
    ensures (forall x | x in s :: !IsSpecial(x)) ==> r == s
  {
    var amp := ReplaceAll(s, '&', "&amp;");
    var lt := ReplaceAll(amp, '<', "&lt;");
    assert '<' !in lt;
    var gt := ReplaceAll(lt, '>', "&gt;");
    assert '<' !in gt && '>' !in gt;
    var quot := ReplaceAll(gt, '"', "&quot;");
    assert '<' !in quot && '>' !in quot && '"' !in quot;
    ReplaceAll(quot, '\'', "&#039;")
  }

  /** `encode` on a string: the empty string is falsy and comes back as `''`, any other string goes through the chain. */
  function Encode(s: string): (r: string)
    ensures s == "" ==> r == ""
    ensures '<' !in r && '>' !in r && '"' !in r && '\'' !in r
    ensures (forall x | x in s :: !IsSpecial(x)) ==> r == s
  {
    if s == "" then "" else ReplaceChain(s)
  }

  /** The message V8 gives when `encode` calls `.replace` on a value that is not a string. */
  const ReplaceNotAFunction: string := "str.replace is not a function"

  /**
   * `encode(str)` on whatever JavaScript value the page builder passes: a
   * falsy value gives `''`, a non-empty string is escaped, and any other
   * truthy value has no `.replace` method, so the call throws a TypeError.
   */
  function EncodeValue(v: JsValue): (r: Completion<string>)
    ensures !Truthy(v) ==> r == Normal("")
    ensures r.Throw? <==> Truthy(v) && !v.json.JString?
    ensures Truthy(v) && v.json.JString? ==> r == Normal(Encode(v.json.s)) && r.value != ""
  {
    if !Truthy(v) then Normal("")
    else if v.json.JString? then
      EncodeNonEmpty(v.json.s);
      Normal(Encode(v.json.s))
    else Throw(ReplaceNotAFunction)
  }

  // ---------------------------------------------------------------------------
  // Reference definitions: a per-character escaper and a decoder.
  // ---------------------------------------------------------------------------

  /** What one character becomes in the output. */
  function EscapeChar(c: char): (r: string)
    ensures IsSpecial(c) <==> |r| > 1
    ensures !IsSpecial(c) ==> r == [c]
    ensures IsSpecial(c) ==> EntityAt(r, 0)
  {
    if c == '&' then "&amp;"
    else if c == '<' then "&lt;"
    else if c == '>' then "&gt;"
    else if c == '"' then "&quot;"
    else if c == '\'' then "&#039;"
    else [c]
  }

  /** The per-character escaper: each character of `s` replaced by `EscapeChar` of it. */
  function EscapeEach(s: string): string {
    if s == [] then [] else EscapeChar(s[0]) + EscapeEach(s[1..])
  }

  /** Turns the five entities back into the characters they stand for; everything else is copied. */
  function Decode(s: string): string
    decreases |s|
  {
    if s == [] then []
    else if StartsWith(s, "&amp;") then "&" + Decode(s[5..])
    else if StartsWith(s, "&lt;") then "<" + Decode(s[4..])
    else if StartsWith(s, "&gt;") then ">" + Decode(s[4..])
    else if StartsWith(s, "&quot;") then "\"" + Decode(s[6..])
    else if StartsWith(s, "&#039;") then "'" + Decode(s[6..])
    else [s[0]] + Decode(s[1..])
  }

  // ---------------------------------------------------------------------------
  // The replacement chain is the per-character escaper.
  // ---------------------------------------------------------------------------

  /** One global replacement distributes over concatenation. */
  lemma {:induction false} ReplaceAllAppend(a: string, b: string, c: char, entity: string)
    ensures ReplaceAll(a + b, c, entity) == ReplaceAll(a, c, entity) + ReplaceAll(b, c, entity)
  {
    if a == [] {
      assert a + b == b;
    } else {
      assert (a + b)[0] == a[0];
      assert (a + b)[1..] == a[1..] + b;
      ReplaceAllAppend(a[1..], b, c, entity);
    }
  }

  /** The whole chain distributes over concatenation. */
  lemma {:induction false} ReplaceChainAppend(a: string, b: string)
    ensures ReplaceChain(a + b) == ReplaceChain(a) + ReplaceChain(b)
  {
    var a1, b1 := ReplaceAll(a, '&', "&amp;"), ReplaceAll(b, '&', "&amp;");
    ReplaceAllAppend(a, b, '&', "&amp;");
    var a2, b2 := ReplaceAll(a1, '<', "&lt;"), ReplaceAll(b1, '<', "&lt;");
    ReplaceAllAppend(a1, b1, '<', "&lt;");
    var a3, b3 := ReplaceAll(a2, '>', "&gt;"), ReplaceAll(b2, '>', "&gt;");
    ReplaceAllAppend(a2, b2, '>', "&gt;");
    var a4, b4 := ReplaceAll(a3, '"', "&quot;"), ReplaceAll(b3, '"', "&quot;");
    ReplaceAllAppend(a3, b3, '"', "&quot;");
    ReplaceAllAppend(a4, b4, '\'', "&#039;");
  }

  /**
   * On one character the chain writes exactly that character's entity: no
   * later pass finds anything to replace in an entity an earlier pass wrote,
   * because `&` is rewritten first.
   */
  lemma {:induction false} ReplaceChainChar(c: char)
    ensures ReplaceChain([c]) == EscapeChar(c)
  {
    assert [c][1..] == [];
    var amp := ReplaceAll([c], '&', "&amp;");
    if c == '&' {
      assert amp == "&amp;";
      assert '<' !in amp && '>' !in amp && '"' !in amp && '\'' !in amp;
    } else {
      assert amp == [c];
      var lt := ReplaceAll(amp, '<', "&lt;");
      if c == '<' {
        assert lt == "&lt;";
        assert '>' !in lt && '"' !in lt && '\'' !in lt;
      } else {
        assert lt == [c];
        var gt := ReplaceAll(lt, '>', "&gt;");
        if c == '>' {
          assert gt == "&gt;";
          assert '"' !in gt && '\'' !in gt;
        } else {
          assert gt == [c];
          var quot := ReplaceAll(gt, '"', "&quot;");
          if c == '"' {
            assert quot == "&quot;";
            assert '\'' !in quot;
          } else {
            assert quot == [c];
          }
        }
      }
    }
  }

  /** The five-pass chain equals the per-character escaper on every string. */
  lemma {:induction false} ReplaceChainIsPerChar(s: string)
    ensures ReplaceChain(s) == EscapeEach(s)
  {
    if s != [] {
      assert s == [s[0]] + s[1..];
      ReplaceChainAppend([s[0]], s[1..]);
      ReplaceChainChar(s[0]);
      ReplaceChainIsPerChar(s[1..]);
    }
  }

  /** `encode` on strings, early return included, is the per-character escaper. */
  lemma {:induction false} EncodeIsPerChar(s: string)
    ensures Encode(s) == EscapeEach(s)
  {
    ReplaceChainIsPerChar(s);
  }

  // ---------------------------------------------------------------------------
  // Properties of the per-character escaper.
  // ---------------------------------------------------------------------------

  lemma {:induction false} EscapeEachNoRaw(s: string)
    ensures forall x | x in EscapeEach(s) :: x != '<' && x != '>' && x != '"' && x != '\''
  {
    if s != [] {
      EscapeEachNoRaw(s[1..]);
      var e, t := EscapeChar(s[0]), EscapeEach(s[1..]);
      forall x | x in e + t ensures x != '<' && x != '>' && x != '"' && x != '\'' {
        if x in e {
          if IsSpecial(s[0]) {
            assert x in "&amp;" || x in "&lt;" || x in "&gt;" || x in "&quot;" || x in "&#039;";
          }
        } else {
          assert x in t;
        }
      }
    }
  }

  /** An entity found at index `j` of `t` is still found after any prefix. */
  lemma EntityAtShift(e: string, t: string, j: nat)
    requires EntityAt(t, j)
    ensures EntityAt(e + t, |e| + j)
  {
  }

  /** An entity at the start of `e` stays there when anything follows. */
  lemma EntityAtStart(e: string, t: string)
    requires EntityAt(e, 0)
    ensures EntityAt(e + t, 0)
  {
  }

  lemma {:induction false} EscapeEachAmpersands(s: string)
    ensures forall i | 0 <= i < |EscapeEach(s)| && EscapeEach(s)[i] == '&' :: EntityAt(EscapeEach(s), i)
  {
    if s != [] {
      EscapeEachAmpersands(s[1..]);
      var e, t := EscapeChar(s[0]), EscapeEach(s[1..]);
      forall i | 0 <= i < |e + t| && (e + t)[i] == '&' ensures EntityAt(e + t, i) {
        if i < |e| {
          assert e[i] == '&';
          assert IsSpecial(s[0]) && i == 0;
          EntityAtStart(e, t);
        } else {
          assert t[i - |e|] == '&';
          EntityAtShift(e, t, i - |e|);
        }
      }
    }
  }

  lemma {:induction false} EscapeEachLength(s: string)
    ensures |EscapeEach(s)| >= |s|
    ensures |EscapeEach(s)| == |s| <==> forall x | x in s :: !IsSpecial(x)
    ensures (forall x | x in s :: !IsSpecial(x)) ==> EscapeEach(s) == s
  {
    if s != [] {
      EscapeEachLength(s[1..]);
      assert s == [s[0]] + s[1..];
      assert forall x | x in s :: x == s[0] || x in s[1..];
    }
  }

  lemma DecodeAmp(t: string)
    ensures Decode("&amp;" + t) == "&" + Decode(t)
  {
    var u := "&amp;" + t;
    assert u[..5] == "&amp;" && u[5..] == t;
  }

  lemma DecodeLt(t: string)
    ensures Decode("&lt;" + t) == "<" + Decode(t)
  {
    var u := "&lt;" + t;
    assert !StartsWith(u, "&amp;") by { assert u[1] == 'l'; }
    assert u[..4] == "&lt;" && u[4..] == t;
  }

  lemma DecodeGt(t: string)
    ensures Decode("&gt;" + t) == ">" + Decode(t)
  {
    var u := "&gt;" + t;
    assert !StartsWith(u, "&amp;") && !StartsWith(u, "&lt;") by { assert u[1] == 'g'; }
    assert u[..4] == "&gt;" && u[4..] == t;
  }

  lemma DecodeQuot(t: string)
    ensures Decode("&quot;" + t) == "\"" + Decode(t)
  {
    var u := "&quot;" + t;
    assert !StartsWith(u, "&amp;") && !StartsWith(u, "&lt;") && !StartsWith(u, "&gt;") by {
      assert u[1] == 'q';
    }
    assert u[..6] == "&quot;" && u[6..] == t;
  }

  lemma DecodeApos(t: string)
    ensures Decode("&#039;" + t) == "'" + Decode(t)
  {
    var u := "&#039;" + t;
    assert !StartsWith(u, "&amp;") && !StartsWith(u, "&lt;") && !StartsWith(u, "&gt;") &&
           !StartsWith(u, "&quot;") by {
      assert u[1] == '#';
    }
    assert u[..6] == "&#039;" && u[6..] == t;
  }

  lemma DecodePlain(c: char, t: string)
    requires c != '&'
    ensures Decode([c] + t) == [c] + Decode(t)
  {
    var u := [c] + t;
    assert u[0] == c && u[1..] == t;
  }

  /** Decoding one escaped character followed by anything gives back that character first. */
  lemma {:induction false} DecodeEscapeChar(c: char, t: string)
    ensures Decode(EscapeChar(c) + t) == [c] + Decode(t)
  {
    if c == '&' {
      DecodeAmp(t);
    } else if c == '<' {
      DecodeLt(t);
    } else if c == '>' {
      DecodeGt(t);
    } else if c == '"' {
      DecodeQuot(t);
    } else if c == '\'' {
      DecodeApos(t);
    } else {
      DecodePlain(c, t);
    }
  }

  lemma {:induction false} DecodeEscapeEach(s: string)
    ensures Decode(EscapeEach(s)) == s
  {
    if s != [] {
      DecodeEscapeEach(s[1..]);
      DecodeEscapeChar(s[0], EscapeEach(s[1..]));
      assert s == [s[0]] + s[1..];
    }
  }

  // ---------------------------------------------------------------------------
  // What `encode` promises.
  // ---------------------------------------------------------------------------

  /** A non-empty input gives a non-empty output. */
  lemma {:induction false} EncodeNonEmpty(s: string)
    ensures s != "" ==> Encode(s) != ""
  {
    EncodeIsPerChar(s);
    EscapeEachLength(s);
  }

  /** No `<`, `>`, `"` or `'` survives escaping. */
  lemma {:induction false} EncodeNoRawSpecials(s: string)
    ensures forall x | x in Encode(s) :: x != '<' && x != '>' && x != '"' && x != '\''
  {
    EncodeIsPerChar(s);
    EscapeEachNoRaw(s);
  }

  /** Every `&` in the output begins one of the five entities. */
  lemma {:induction false} EncodeAmpersandsAreEntities(s: string)
    ensures forall i | 0 <= i < |Encode(s)| && Encode(s)[i] == '&' :: EntityAt(Encode(s), i)
  {
    EncodeIsPerChar(s);
    EscapeEachAmpersands(s);
  }

  /** Decoding the five entities recovers the input. */
  lemma {:induction false} DecodeEncode(s: string)
    ensures Decode(Encode(s)) == s
  {
    EncodeIsPerChar(s);
    DecodeEscapeEach(s);
  }

  /** Different inputs are escaped differently. */
  lemma {:induction false} EncodeInjective(a: string, b: string)
    ensures Encode(a) == Encode(b) ==> a == b
  {
    DecodeEncode(a);
    DecodeEncode(b);
  }

  /** The output is never shorter than the input, and has the same length exactly when nothing was special. */
  lemma {:induction false} EncodeLength(s: string)
    ensures |Encode(s)| >= |s|
    ensures |Encode(s)| == |s| <==> forall x | x in s :: !IsSpecial(x)
  {
    EncodeIsPerChar(s);
    EscapeEachLength(s);
  }

  /** A string is returned unchanged exactly when it holds none of the five special characters. */
  lemma {:induction false} EncodeFixedPoint(s: string)
    ensures Encode(s) == s <==> forall x | x in s :: !IsSpecial(x)
  {
    EncodeIsPerChar(s);
    EscapeEachLength(s);
  }
}
