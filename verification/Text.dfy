/** Text as sequences of characters: white space, the separators of the line's names, and digits. */
module Text {

  /** isspace of the C locale. */
  predicate IsSpace(c: char) {
    c == ' ' || (9 <= c as int <= 13)
  }

  predicate IsDigit(c: char) { '0' <= c <= '9' }

  predicate IsLetter(c: char) { 'A' <= c <= 'Z' || 'a' <= c <= 'z' }

  function RemoveSpace(s: string): string {
    if s == "" then "" else (if IsSpace(s[0]) then "" else [s[0]]) + RemoveSpace(s[1..])
  }

  predicate Spaceless(s: string) { forall c <- s :: !IsSpace(c) }

  /** Some character is not white space. */
  predicate NonBlank(s: string) { exists c <- s :: !IsSpace(c) }

  lemma {:induction false} RemoveSpaceAppend(a: string, b: string)
    ensures RemoveSpace(a + b) == RemoveSpace(a) + RemoveSpace(b)
  {
    if a == "" {
      assert a + b == b;
    } else {
      assert (a + b)[1..] == a[1..] + b;
      RemoveSpaceAppend(a[1..], b);
    }
  }

  lemma {:induction false} RemoveSpaceSpaceless(s: string)
    ensures Spaceless(RemoveSpace(s))
    ensures RemoveSpace(s) == "" <==> !NonBlank(s)
    ensures Spaceless(s) ==> RemoveSpace(s) == s
    ensures forall c <- RemoveSpace(s) :: c in s
  {
    if s != "" {
      RemoveSpaceSpaceless(s[1..]);
      assert s == [s[0]] + s[1..];
    }
  }

  lemma {:induction false} RemoveSpaceKeeps(s: string, c: char)
    requires c in s && !IsSpace(c)
    ensures c in RemoveSpace(s)
  {
    if s[0] != c {
      assert s == [s[0]] + s[1..];
      RemoveSpaceKeeps(s[1..], c);
    }
  }

  /** Blank, tab, line feed, vertical tab, form feed and carriage return go, each by itself; nothing else does. */
  lemma {:induction false} RemoveSpaceTells(a: string, c: char, b: string)
    ensures RemoveSpace(a + [c] + b)
         == RemoveSpace(a) + (if c in [32 as char, 9 as char, 10 as char, 11 as char, 12 as char, 13 as char] then ""
                              else [c]) + RemoveSpace(b)
  {
    RemoveSpaceAppend(a + [c], b);
    RemoveSpaceAppend(a, [c]);
  }

  /** '/' becomes '_', nothing else changes. */
  function Slash(s: string): string {
    seq(|s|, i requires 0 <= i < |s| => if s[i] == '/' then '_' else s[i])
  }

  lemma SlashTells(a: string, c: char, b: string)
    ensures Slash(a + [c] + b) == Slash(a) + [if c == '/' then '_' else c] + Slash(b)
  {
  }

  // ----- Cutting at a separator -----

  lemma FirstSeparator(a: string, b: string, s: string, t: string, c: char)
    requires c !in a && c !in b && a + [c] + s == b + [c] + t
    ensures a == b && s == t
  {
    var x, y := a + [c] + s, b + [c] + t;
    assert x[|a|] == c && y[|b|] == c;
    assert forall i :: 0 <= i < |a| ==> x[i] == a[i];
    assert forall i :: 0 <= i < |b| ==> y[i] == b[i];
    assert |a| == |b|;
    assert x[..|a|] == a && y[..|b|] == b;
    assert x[|a| + 1..] == s && y[|b| + 1..] == t;
  }

  lemma LastSeparator(a: string, b: string, s: string, t: string, c: char)
    requires c !in s && c !in t && a + [c] + s == b + [c] + t
    ensures a == b && s == t
  {
    var x, y := a + [c] + s, b + [c] + t;
    assert x[|a|] == c && y[|b|] == c;
    assert forall i :: |a| < i < |x| ==> x[i] == s[i - |a| - 1];
    assert forall i :: |b| < i < |y| ==> y[i] == t[i - |b| - 1];
    assert |a| == |b|;
    assert x[..|a|] == a && y[..|b|] == b;
    assert x[|a| + 1..] == s && y[|b| + 1..] == t;
  }
}
