/** Which texts normalization identifies (packages/db/src/kernel-registry.ts, packages/db/src/normalize.ts):
    those with the same words between runs of white space, letter by letter up to ASCII case. */
module IdentifierWords {
  import opened Text
  import opened KernelRegistry

  // ----- Words -----

  /** White space is what the JavaScript class holds: the ASCII and Unicode blanks, the line ends and
      the byte order mark. */
  lemma WhiteSpaceIsListed(c: char)
    ensures IsSpace(c) <==> c in {
      '\t', '\n', '\U{B}', '\U{C}', '\r', ' ', '\U{A0}', '\U{1680}', '\U{2000}', '\U{2001}', '\U{2002}',
      '\U{2003}', '\U{2004}', '\U{2005}', '\U{2006}', '\U{2007}', '\U{2008}', '\U{2009}', '\U{200A}',
      '\U{2028}', '\U{2029}', '\U{202F}', '\U{205F}', '\U{3000}', '\U{FEFF}'}
  {
    var n := c as int;
    assert c == n as char;
  }

  /** The words of a text: its longest parts without white space, in order. */
  function Words(s: string): (ws: seq<string>)
    ensures s != [] && !IsSpace(s[0]) ==> ws != [] && ws[0] != [] && ws[0][0] == s[0]
  {
    if s == [] then []
    else if IsSpace(s[0]) then Words(s[1..])
    else if |s| > 1 && !IsSpace(s[1]) then [[s[0]] + Words(s[1..])[0]] + Words(s[1..])[1..]
    else [[s[0]]] + Words(s[1..])
  }

  /** One character, or the two cases of one ASCII letter. */
  predicate SameLetter(c: char, d: char) {
    c == d || ('A' <= c <= 'Z' && d as int == c as int + 32) || ('A' <= d <= 'Z' && c as int == d as int + 32)
  }

  predicate SameWord(a: string, b: string) {
    |a| == |b| && forall i :: 0 <= i < |a| ==> SameLetter(a[i], b[i])
  }

  /** The same words, up to case. */
  predicate SameWords(a: string, b: string) {
    |Words(a)| == |Words(b)| && forall i :: 0 <= i < |Words(a)| ==> SameWord(Words(a)[i], Words(b)[i])
  }

  // ----- Lower case -----

  lemma LettersFoldAlike(c: char, d: char)
    ensures LowerChar(c) == LowerChar(d) <==> SameLetter(c, d)
    ensures IsSpace(LowerChar(c)) <==> IsSpace(c)
  {
  }

  lemma {:induction false} WordsFoldAlike(a: string, b: string)
    ensures Lower(a) == Lower(b) <==> SameWord(a, b)
  {
    LowerOutcome(a);
    LowerOutcome(b);
    if a != [] && b != [] {
      LettersFoldAlike(a[0], b[0]);
      WordsFoldAlike(a[1..], b[1..]);
      assert Lower(a)[0] == LowerChar(a[0]) && Lower(b)[0] == LowerChar(b[0]);
      assert Lower(a)[1..] == Lower(a[1..]) && Lower(b)[1..] == Lower(b[1..]);
      if SameWord(a, b) {
        forall i | 0 <= i < |a[1..]| ensures SameLetter(a[1..][i], b[1..][i]) {
          assert SameLetter(a[i + 1], b[i + 1]);
        }
      }
      if SameWord(a[1..], b[1..]) && SameLetter(a[0], b[0]) {
        forall i | 0 <= i < |a| ensures SameLetter(a[i], b[i]) {
          if i > 0 { assert SameLetter(a[1..][i - 1], b[1..][i - 1]); }
        }
      }
    }
  }

  function LowerAll(ws: seq<string>): seq<string> {
    seq(|ws|, i requires 0 <= i < |ws| => Lower(ws[i]))
  }

  lemma {:induction false} LowerAllCons(w: string, ws: seq<string>)
    ensures LowerAll([w] + ws) == [Lower(w)] + LowerAll(ws)
  {
  }

  lemma {:induction false} LowerCons(c: char, s: string)
    ensures Lower([c] + s) == [LowerChar(c)] + Lower(s)
  {
    assert ([c] + s)[1..] == s;
  }

  lemma {:induction false} WordsOfLower(s: string)
    ensures Words(Lower(s)) == LowerAll(Words(s))
  {
    if s != [] {
      WordsOfLower(s[1..]);
      LettersFoldAlike(s[0], s[0]);
      assert Lower(s)[1..] == Lower(s[1..]);
      var ws := Words(s[1..]);
      if |s| > 1 {
        LettersFoldAlike(s[1], s[1]);
        assert Lower(s)[1] == Lower(s[1..])[0] == LowerChar(s[1]);
      }
      if !IsSpace(s[0]) {
        if |s| > 1 && !IsSpace(s[1]) {
          LowerAllCons([s[0]] + ws[0], ws[1..]);
          LowerAllCons(ws[0], ws[1..]);
          assert [ws[0]] + ws[1..] == ws;
          LowerCons(s[0], ws[0]);
        } else {
          LowerAllCons([s[0]], ws);
          LowerCons(s[0], []);
          assert Lower([s[0]]) == [LowerChar(s[0])] by { assert [s[0]] + [] == [s[0]]; }
        }
      }
    }
  }

  // ----- White space -----

  lemma {:induction false} WordsOfTrimStart(s: string)
    ensures Words(TrimStart(s)) == Words(s)
  {
    if s != [] && IsSpace(s[0]) { WordsOfTrimStart(s[1..]); }
  }

  lemma {:induction false} WordsIgnoreEnd(s: string, c: char)
    requires IsSpace(c)
    ensures Words(s + [c]) == Words(s)
  {
    if s == [] {
      assert [c][1..] == [];
    } else {
      WordsIgnoreEnd(s[1..], c);
      assert (s + [c])[1..] == s[1..] + [c];
    }
  }

  lemma {:induction false} WordsOfTrimEnd(s: string)
    ensures Words(TrimEnd(s)) == Words(s)
  {
    if s != [] && IsSpace(s[|s| - 1]) {
      WordsOfTrimEnd(s[..|s| - 1]);
      WordsIgnoreEnd(s[..|s| - 1], s[|s| - 1]);
      assert s == s[..|s| - 1] + [s[|s| - 1]];
    }
  }

  lemma {:induction false} CollapseStarts(s: string)
    ensures s == [] <==> Collapse(s) == []
    ensures s != [] ==> (IsSpace(Collapse(s)[0]) <==> IsSpace(s[0]))
    ensures s != [] && !IsSpace(s[0]) ==> Collapse(s)[0] == s[0]
  {
    if s != [] { CollapseStarts(s[1..]); }
  }

  lemma {:induction false} WordsOfCollapse(s: string)
    ensures Words(Collapse(s)) == Words(s)
  {
    if s != [] {
      WordsOfCollapse(s[1..]);
      CollapseStarts(s[1..]);
      if !IsSpace(s[0]) {
        assert Collapse(s)[1..] == Collapse(s[1..]);
      } else if !(|s| > 1 && IsSpace(s[1])) {
        assert Collapse(s)[1..] == Collapse(s[1..]);
      }
    }
  }

  /** Normalization keeps the words, in lower case. */
  lemma {:induction false} WordsOfNormalized(s: string)
    ensures Words(NormalizeIdentifierValue(s)) == LowerAll(Words(s))
  {
    WordsOfTrimStart(s);
    WordsOfTrimEnd(TrimStart(s));
    WordsOfLower(Trim(s));
    WordsOfCollapse(Lower(Trim(s)));
  }

  // ----- Canonical texts are their words -----

  predicate StartsAlike(a: string, b: string) {
    if a == [] || b == [] then a == b else IsSpace(a[0]) == IsSpace(b[0])
  }

  lemma {:induction false} CleanHasWord(s: string)
    requires Clean(s) && s != []
    ensures Words(s) != []
  {
  }

  lemma {:induction false} CleanByWords(a: string, b: string)
    requires Clean(a) && Clean(b) && StartsAlike(a, b) && Words(a) == Words(b)
    ensures a == b
  {
    if a != [] {
      if IsSpace(a[0]) {
        CleanByWords(a[1..], b[1..]);
      } else {
        WordsDecideTail(a, b);
        CleanByWords(a[1..], b[1..]);
      }
      assert a == [a[0]] + a[1..] && b == [b[0]] + b[1..];
    }
  }

  lemma {:induction false} WordsDecideTail(a: string, b: string)
    requires Clean(a) && Clean(b) && a != [] && b != [] && !IsSpace(a[0]) && !IsSpace(b[0]) && Words(a) == Words(b)
    ensures a[0] == b[0] && StartsAlike(a[1..], b[1..]) && Words(a[1..]) == Words(b[1..])
  {
    assert Clean(a[1..]) && Clean(b[1..]);
    if |a| > 1 { CleanHasWord(a[1..]); }
    if |b| > 1 { CleanHasWord(b[1..]); }
    assert Words(a)[0][1..] == Words(b)[0][1..] && Words(a)[1..] == Words(b)[1..];
  }

  /** Two texts normalize alike exactly when they have the same words up to case. */
  lemma NormalizeAlike(a: string, b: string)
    ensures NormalizeIdentifierValue(a) == NormalizeIdentifierValue(b) <==> SameWords(a, b)
  {
    WordsOfNormalized(a);
    WordsOfNormalized(b);
    AllFoldAlike(Words(a), Words(b));
    if SameWords(a, b) {
      NormalizedIsCanonical(a);
      NormalizedIsCanonical(b);
      CanonicalByWords(NormalizeIdentifierValue(a), NormalizeIdentifierValue(b));
    }
  }

  lemma AllFoldAlike(ws: seq<string>, vs: seq<string>)
    ensures LowerAll(ws) == LowerAll(vs)
      <==> |ws| == |vs| && forall i :: 0 <= i < |ws| ==> SameWord(ws[i], vs[i])
  {
    forall i | 0 <= i < |ws| && i < |vs| ensures Lower(ws[i]) == Lower(vs[i]) <==> SameWord(ws[i], vs[i]) {
      WordsFoldAlike(ws[i], vs[i]);
    }
    if LowerAll(ws) == LowerAll(vs) {
      assert |LowerAll(ws)| == |ws| && |LowerAll(vs)| == |vs|;
      forall i | 0 <= i < |ws| ensures SameWord(ws[i], vs[i]) {
        assert LowerAll(ws)[i] == LowerAll(vs)[i];
      }
    }
  }

  /** Canonical texts with the same words are the same text. */
  lemma {:induction false} CanonicalByWords(a: string, b: string)
    requires Canonical(a) && Canonical(b) && Words(a) == Words(b)
    ensures a == b
  {
    if a != [] { CleanHasWord(a); }
    if b != [] { CleanHasWord(b); }
    CleanByWords(a, b);
  }

  // ----- Types -----

  /** The text is one word, the given one up to case, with white space around it. */
  predicate IsWord(s: string, word: string) {
    |Words(s)| == 1 && SameWord(Words(s)[0], word)
  }

  /** A word of lower-case letters. */
  predicate PlainWord(word: string) {
    word != [] && forall i :: 0 <= i < |word| ==> 'a' <= word[i] <= 'z' || word[i] == '_'
  }

  lemma {:induction false} PlainIsOneWord(word: string)
    requires PlainWord(word)
    ensures Words(word) == [word] && Lower(word) == word && Canonical(word)
  {
    if |word| > 1 {
      assert PlainWord(word[1..]);
      PlainIsOneWord(word[1..]);
      assert word == [word[0]] + word[1..];
    } else {
      assert word[1..] == [] && word == [word[0]];
    }
  }

  lemma {:induction false} CollapseKeepsWord(s: string)
    requires s != [] && !IsSpace(s[0]) && !IsSpace(s[|s| - 1]) && |Words(s)| == 1
    ensures Collapse(s) == s && Words(s) == [s]
  {
    if |s| > 1 {
      if IsSpace(s[1]) {
        assert s[1..] != [];
        EndsInWord(s[1..]);
        assert false;
      } else {
        CollapseKeepsWord(s[1..]);
        assert s == [s[0]] + s[1..];
      }
    } else {
      assert s[1..] == [] && s == [s[0]];
    }
  }

  lemma {:induction false} EndsInWord(s: string)
    requires s != [] && !IsSpace(s[|s| - 1])
    ensures Words(s) != []
  {
    if |s| > 1 { EndsInWord(s[1..]); }
  }

  /** Trimming and folding gives a plain word exactly when the text is that word. */
  lemma FoldsToWord(s: string, word: string)
    requires PlainWord(word)
    ensures Lower(Trim(s)) == word <==> IsWord(s, word)
  {
    PlainIsOneWord(word);
    WordsOfTrimStart(s);
    WordsOfTrimEnd(TrimStart(s));
    WordsOfLower(Trim(s));
    TrimStartOutcome(s);
    TrimEndOutcome(TrimStart(s));
    LowerOutcome(Trim(s));
    if Lower(Trim(s)) == word {
      assert LowerAll(Words(s))[0] == Lower(Words(s)[0]);
      WordsFoldAlike(Words(s)[0], word);
    }
    if IsWord(s, word) {
      CollapseKeepsWord(Trim(s));
      WordsFoldAlike(Trim(s), word);
    }
  }

  lemma TypesAreListed(word: string)
    ensures word in GENERIC_ENTITY_TYPES || word in TCG_KERNEL_ENTITY_TYPES
      <==> word in {"sku", "product", "listing", "account", "item", "generic", "tcg_printing"}
    ensures word in GENERIC_IDENTIFIER_TYPES
      <==> word in {"sku", "external_product_id", "listing_id", "account_id", "generic_id"}
  {
    var kinds, kernel, ids := GENERIC_ENTITY_TYPES, TCG_KERNEL_ENTITY_TYPES, GENERIC_IDENTIFIER_TYPES;
    assert kinds[0] == "sku" && kinds[1] == "product" && kinds[2] == "listing" && kinds[3] == "account"
      && kinds[4] == "item" && kinds[5] == "generic" && kernel[0] == "tcg_printing";
    assert ids[0] == "sku" && ids[1] == "external_product_id" && ids[2] == "listing_id" && ids[3] == "account_id"
      && ids[4] == "generic_id";
  }

  /** A raw type names one of the known types by its one word, up to case; any other text is generic. */
  lemma EntityTypeByWord(raw: string)
    ensures ParseEntityType(raw)
      in {"sku", "product", "listing", "account", "item", "generic", "tcg_printing"}
    ensures forall word :: word in {"sku", "product", "listing", "account", "item", "tcg_printing"} ==>
      (ParseEntityType(raw) == word <==> IsWord(raw, word))
  {
    TypesAreListed(Lower(Trim(raw)));
    forall word | word in {"sku", "product", "listing", "account", "item", "tcg_printing"}
      ensures Lower(Trim(raw)) == word <==> IsWord(raw, word)
    {
      FoldsToWord(raw, word);
    }
  }

  /** The identifier types that a generic entity keeps. */
  predicate KeptType(raw: string) {
    raw in {"external_product_id", "listing_id", "account_id"}
  }

  lemma TypeOfTyped(raw: string)
    requires ParseEntityType(raw) != "generic"
    ensures IdentifierTypeOf(raw) == if IsWord(raw, "sku") then "sku" else "generic_id"
  {
    EntityTypeByWord(raw);
    TypesAreListed(ParseEntityType(raw));
  }

  lemma TypeOfGeneric(raw: string)
    requires ParseEntityType(raw) == "generic"
    ensures !IsWord(raw, "sku") && raw != "sku"
    ensures IdentifierTypeOf(raw) == if KeptType(raw) then raw else "generic_id"
  {
    EntityTypeByWord(raw);
    TypesAreListed(raw);
    PlainIsOneWord("sku");
  }

  lemma PlainStays(word: string)
    requires PlainWord(word)
    ensures Lower(Trim(word)) == word
  {
    PlainIsOneWord(word);
    FoldsToWord(word, word);
  }

  lemma OthersAreGeneric(raw: string)
    requires PlainWord(raw)
    requires raw !in {"sku", "product", "listing", "account", "item", "generic", "tcg_printing"}
    ensures ParseEntityType(raw) == "generic"
  {
    PlainStays(raw);
    TypesAreListed(raw);
  }

  lemma IdentifierTypesArePlain()
    ensures PlainWord("external_product_id") && PlainWord("listing_id") && PlainWord("account_id")
  {
  }

  lemma IdentifierTypesAreOther(raw: string)
    requires KeptType(raw)
    ensures PlainWord(raw) && raw !in {"sku", "product", "listing", "account", "item", "generic", "tcg_printing"}
  {
    IdentifierTypesArePlain();
    assert |raw| == 19 || |raw| == 10;
  }

  /** The identifier type of a raw type: `sku` for that word, the text itself when it is one of the other
      known identifier types, and else the generic one. */
  lemma IdentifierTypeByWord(raw: string)
    ensures IdentifierTypeOf(raw)
      == if IsWord(raw, "sku") then "sku" else if KeptType(raw) then raw else "generic_id"
  {
    if ParseEntityType(raw) == "generic" {
      TypeOfGeneric(raw);
    } else {
      TypeOfTyped(raw);
      if KeptType(raw) {
        IdentifierTypesAreOther(raw);
        OthersAreGeneric(raw);
      }
    }
  }

  /** The identifier types of two raw types agree: both are `sku`, or the same kept type, or neither is
      any of these. */
  predicate SameIdentifierType(a: string, b: string) {
    if IsWord(a, "sku") || IsWord(b, "sku") then IsWord(a, "sku") && IsWord(b, "sku")
    else if KeptType(a) || KeptType(b) then a == b
    else true
  }

  lemma OtherTypesDiffer()
    ensures "sku" != "generic_id" && !KeptType("sku") && !KeptType("generic_id")
  {
    assert |"sku"| == 3 && |"generic_id"| == 10;
    assert "generic_id"[0] == 'g';
  }

  lemma IdentifierTypesAgree(a: string, b: string)
    ensures IdentifierTypeOf(a) == IdentifierTypeOf(b) <==> SameIdentifierType(a, b)
  {
    IdentifierTypeByWord(a);
    IdentifierTypeByWord(b);
    OtherTypesDiffer();
  }
}
