/** The string operations the modules share. Letter case is folded for ASCII; white space is
    the class that JavaScript trims. */
module Text {

  predicate IsSpace(c: char) {
    var n := c as int;
    9 <= n <= 13 || n == 32 || n == 160 || n == 0x1680 || 0x2000 <= n <= 0x200A || n == 0x2028 || n == 0x2029
    || n == 0x202F || n == 0x205F || n == 0x3000 || n == 0xFEFF
  }

  predicate IsUpper(c: char) { 'A' <= c <= 'Z' }

  function LowerChar(c: char): char {
    if IsUpper(c) then c - 'A' + 'a' else c
  }

  function TrimStart(s: string): string {
    if s != [] && IsSpace(s[0]) then TrimStart(s[1..]) else s
  }

  function TrimEnd(s: string): string {
    if s != [] && IsSpace(s[|s| - 1]) then TrimEnd(s[..|s| - 1]) else s
  }

  function Trim(s: string): string { TrimEnd(TrimStart(s)) }

  function Lower(s: string): string {
    if s == [] then [] else [LowerChar(s[0])] + Lower(s[1..])
  }

  predicate Lowered(s: string) {
    s == [] || (!IsUpper(s[0]) && Lowered(s[1..]))
  }

  lemma {:induction false} TrimEndOutcome(s: string)
    ensures var t := TrimEnd(s);
      (t != [] ==> !IsSpace(t[|t| - 1])) && |t| <= |s| && t == s[..|t|]
  {
    if s != [] && IsSpace(s[|s| - 1]) {
      TrimEndOutcome(s[..|s| - 1]);
    }
  }

  lemma {:induction false} TrimStartOutcome(s: string)
    ensures TrimStart(s) != [] ==> !IsSpace(TrimStart(s)[0])
  {
    if s != [] && IsSpace(s[0]) {
      TrimStartOutcome(s[1..]);
    }
  }

  lemma {:induction false} LowerOutcome(s: string)
    ensures |Lower(s)| == |s| && Lowered(Lower(s))
    ensures s != [] ==> (IsSpace(Lower(s)[0]) <==> IsSpace(s[0]))
    ensures s != [] ==> (IsSpace(Lower(s)[|s| - 1]) <==> IsSpace(s[|s| - 1]))
  {
    if s != [] {
      LowerOutcome(s[1..]);
    }
  }

  /** Trimming leaves alone what has no white space at its ends. */
  lemma TrimKeepsTrimmed(s: string)
    requires s != [] ==> !IsSpace(s[0]) && !IsSpace(s[|s| - 1])
    ensures Trim(s) == s
  {
  }

  lemma {:induction false} LowerKeepsLowered(s: string)
    requires Lowered(s)
    ensures Lower(s) == s
  {
    if s != [] { LowerKeepsLowered(s[1..]); }
  }

  /** Trimming and folding once is enough. */
  lemma FoldIsIdempotent(s: string)
    ensures Lower(Trim(Lower(Trim(s)))) == Lower(Trim(s))
  {
    TrimStartOutcome(s);
    TrimEndOutcome(TrimStart(s));
    LowerOutcome(Trim(s));
    TrimKeepsTrimmed(Lower(Trim(s)));
    LowerKeepsLowered(Lower(Trim(s)));
  }
}
