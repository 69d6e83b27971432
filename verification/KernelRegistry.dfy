/** Identifier normalization and canonical keys (packages/db/src/kernel-registry.ts). */
module KernelRegistry {
  import opened Text

  // ----- Normalized identifier values -----

  /** Every run of white space becomes one blank. */
  function Collapse(s: string): string {
    if s == [] then []
    else if !IsSpace(s[0]) then [s[0]] + Collapse(s[1..])
    else if |s| > 1 && IsSpace(s[1]) then Collapse(s[1..])
    else [' '] + Collapse(s[1..])
  }

  function NormalizeIdentifierValue(s: string): string {
    Collapse(Lower(Trim(s)))
  }

  /** No upper case, blanks only, each of them before a character that is not white space. */
  predicate Clean(s: string) {
    s == [] || (&& !IsUpper(s[0])
                && (IsSpace(s[0]) ==> s[0] == ' ' && |s| > 1 && !IsSpace(s[1]))
                && Clean(s[1..]))
  }

  predicate Canonical(s: string) {
    (s == [] || !IsSpace(s[0])) && Clean(s)
  }

  lemma {:induction false} CollapseIsClean(s: string)
    requires Lowered(s) && (s == [] || !IsSpace(s[|s| - 1]))
    ensures Clean(Collapse(s))
    ensures s == [] <==> Collapse(s) == []
    ensures s != [] ==> (IsSpace(Collapse(s)[0]) <==> IsSpace(s[0]))
  {
    if s != [] {
      CollapseIsClean(s[1..]);
    }
  }

  lemma {:induction false} CleanIsFixed(s: string)
    requires Clean(s)
    ensures Lower(s) == s && Collapse(s) == s
    ensures s != [] ==> !IsSpace(s[|s| - 1])
  {
    if s != [] {
      CleanIsFixed(s[1..]);
    }
  }

  /** Normalized values are exactly the canonical strings: normalizing gives one, and changes
      none of them. */
  lemma NormalizedIsCanonical(s: string)
    ensures Canonical(NormalizeIdentifierValue(s))
    ensures Canonical(s) <==> NormalizeIdentifierValue(s) == s
  {
    TrimStartOutcome(s);
    TrimEndOutcome(TrimStart(s));
    LowerOutcome(Trim(s));
    CollapseIsClean(Lower(Trim(s)));
    if Canonical(s) {
      CleanIsFixed(s);
    }
  }

  /** Normalization is idempotent. */
  lemma NormalizeIsIdempotent(s: string)
    ensures NormalizeIdentifierValue(NormalizeIdentifierValue(s)) == NormalizeIdentifierValue(s)
  {
    NormalizedIsCanonical(s);
    NormalizedIsCanonical(NormalizeIdentifierValue(s));
  }

  // ----- Types -----

  const GENERIC_ENTITY_TYPES: seq<string> := ["sku", "product", "listing", "account", "item", "generic"]
  const TCG_KERNEL_ENTITY_TYPES: seq<string> := ["tcg_printing"]
  const GENERIC_IDENTIFIER_TYPES: seq<string> :=
    ["sku", "external_product_id", "listing_id", "account_id", "generic_id"]
  const SOURCE_NAMESPACE: string := "ingest"

  function ParseEntityType(value: string): string {
    var lowered := Lower(Trim(value));
    if lowered in GENERIC_ENTITY_TYPES || lowered in TCG_KERNEL_ENTITY_TYPES then lowered else "generic"
  }

  function ParseIdentifierType(value: string): string {
    if value in GENERIC_IDENTIFIER_TYPES then value else "generic_id"
  }

  /** The identifier type of an event's entity: generic entities keep the type they came with. */
  function IdentifierTypeOf(rawType: string): string {
    var entityType := ParseEntityType(rawType);
    ParseIdentifierType(if entityType == "generic" then rawType else entityType)
  }

  // ----- Canonical keys -----

  predicate Without(s: string, c: char) {
    s == [] || (s[0] != c && Without(s[1..], c))
  }

  function Join(a: string, c: char, b: string): string { a + [c] + b }

  /** A separator that does not occur in the left parts splits them off again. */
  lemma {:induction false} JoinInjective(a: string, x: string, b: string, y: string, c: char)
    requires Without(a, c) && Without(b, c) && Join(a, c, x) == Join(b, c, y)
    ensures a == b && x == y
  {
    var l, r := Join(a, c, x), Join(b, c, y);
    assert l[0] == r[0];
    assert l[1..] == r[1..];
    if a == [] || b == [] {
      if a == [] && b == [] {
        assert l[1..] == x && r[1..] == y;
      }
    } else {
      assert l[1..] == Join(a[1..], c, x) && r[1..] == Join(b[1..], c, y);
      JoinInjective(a[1..], x, b[1..], y, c);
    }
  }

  function CanonicalEntityKey(
      entityType: string, sourceNamespace: string, identifierType: string, value: string): string
  {
    Join(entityType, ':', Join(sourceNamespace, ':', Join(identifierType, ':', value)))
  }

  /** Keys are injective for parts without a colon, whatever the value holds. */
  lemma {:induction false} KeyInjective(
      t: string, n: string, i: string, v: string, t': string, n': string, i': string, v': string)
    requires Without(t, ':') && Without(n, ':') && Without(i, ':')
    requires Without(t', ':') && Without(n', ':') && Without(i', ':')
    requires CanonicalEntityKey(t, n, i, v) == CanonicalEntityKey(t', n', i', v')
    ensures t == t' && n == n' && i == i' && v == v'
  {
    JoinInjective(t, Join(n, ':', Join(i, ':', v)), t', Join(n', ':', Join(i', ':', v')), ':');
    JoinInjective(n, Join(i, ':', v), n', Join(i', ':', v'), ':');
    JoinInjective(i, v, i', v', ':');
  }

  predicate Separator(c: char) { c == ':' || c == '|' }

  lemma {:induction false} WithoutByIndex(s: string, c: char)
    requires forall k :: 0 <= k < |s| ==> s[k] != c
    ensures Without(s, c)
  {
    if s != [] { WithoutByIndex(s[1..], c); }
  }

  /** No name in the fixed lists holds a separator. */
  lemma {:induction false} EntityTypeIsPlain(s: string, c: char)
    requires s in GENERIC_ENTITY_TYPES && Separator(c)
    ensures Without(s, c)
  {
    var list := GENERIC_ENTITY_TYPES;
    var i :| 0 <= i < |list| && list[i] == s;
    assert forall k :: 0 <= k < |list[i]| ==> list[i][k] != c;
    WithoutByIndex(s, c);
  }

  lemma {:induction false} KernelTypeIsPlain(s: string, c: char)
    requires s in TCG_KERNEL_ENTITY_TYPES && Separator(c)
    ensures Without(s, c)
  {
    var list := TCG_KERNEL_ENTITY_TYPES;
    var i :| 0 <= i < |list| && list[i] == s;
    assert forall k :: 0 <= k < |list[i]| ==> list[i][k] != c;
    WithoutByIndex(s, c);
  }

  lemma {:induction false} IdentifierTypeIsPlain(s: string, c: char)
    requires s in GENERIC_IDENTIFIER_TYPES && Separator(c)
    ensures Without(s, c)
  {
    var list := GENERIC_IDENTIFIER_TYPES;
    var i :| 0 <= i < |list| && list[i] == s;
    assert forall k :: 0 <= k < |list[i]| ==> list[i][k] != c;
    WithoutByIndex(s, c);
  }

  lemma DefaultsListed()
    ensures "generic" in GENERIC_ENTITY_TYPES && "generic_id" in GENERIC_IDENTIFIER_TYPES
    ensures forall c :: Separator(c) ==> Without(SOURCE_NAMESPACE, c)
  {
    assert GENERIC_ENTITY_TYPES[5] == "generic" && GENERIC_IDENTIFIER_TYPES[4] == "generic_id";
  }

  lemma {:induction false} ParsedTypesArePlain(value: string, c: char)
    requires Separator(c)
    ensures Without(ParseEntityType(value), c)
    ensures Without(ParseIdentifierType(value), c)
    ensures Without(SOURCE_NAMESPACE, c)
  {
    DefaultsListed();
    var t := ParseEntityType(value);
    if t in GENERIC_ENTITY_TYPES { EntityTypeIsPlain(t, c); } else { KernelTypeIsPlain(t, c); }
    IdentifierTypeIsPlain(ParseIdentifierType(value), c);
  }
}
