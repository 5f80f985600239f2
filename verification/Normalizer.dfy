/**
 The product standard as the line names it: the raw text of a job instruction is brought to
 one short form, which then names directories and image files. The source works on the raw
 text with regular expressions; Normal says what it amounts to, in terms of the sections
 between the separators x and X of the text without its white space.
 */
module Normalizer {
  import opened Text

  // ----- What the short form is -----

  predicate IsX(c: char) { c == 'x' || c == 'X' }

  /** Where the first x is, or the length of the text. */
  function IndexX(t: string): (p: nat)
    ensures p <= |t| && (p < |t| ==> IsX(t[p]))
    ensures forall i :: 0 <= i < p ==> !IsX(t[i])
  {
    if t == "" || IsX(t[0]) then 0 else 1 + IndexX(t[1..])
  }

  function NonEmpty(t: string): seq<string> {
    if t == "" then [] else [t]
  }

  /** The longest stretches without x, empty ones left out. */
  function Sections(t: string): seq<string>
    decreases |t|
  {
    var p := IndexX(t);
    if p == |t| then NonEmpty(t) else NonEmpty(t[..p]) + Sections(t[p + 1..])
  }

  /** An H section: the letter, then a digit. */
  predicate IsH(section: string) {
    |section| >= 2 && (section[0] == 'H' || section[0] == 'h') && IsDigit(section[1])
  }

  /** An H standard keeps its first two dimensions, any other standard all its sections. */
  function Kept(sections: seq<string>): seq<string> {
    if |sections| >= 2 && IsH(sections[0]) then sections[..2] else sections
  }

  function JoinX(parts: seq<string>): string {
    if parts == [] then "" else if |parts| == 1 then parts[0] else parts[0] + "x" + JoinX(parts[1..])
  }

  /** The short form of a text without white space. */
  function Canon(t: string): string {
    if Sections(t) == [] then t else Slash(JoinX(Kept(Sections(t))))
  }

  function Normal(raw: string): string {
    if raw == "" then "Unknown" else Canon(RemoveSpace(raw))
  }

  // ----- The regular expressions of the source -----

  /** Every run of white space becomes one blank. */
  function Collapse(s: string): string {
    if s == "" then ""
    else if !IsSpace(s[0]) then [s[0]] + Collapse(s[1..])
    else if |s| > 1 && IsSpace(s[1]) then Collapse(s[1..])
    else " " + Collapse(s[1..])
  }

  predicate Trimmable(c: char) { c == ' ' || c == '\t' || c == '\n' || c == '\r' }

  function TrimLeft(s: string): string {
    if s != "" && Trimmable(s[0]) then TrimLeft(s[1..]) else s
  }

  function TrimRight(s: string): string {
    if s != "" && Trimmable(s[|s| - 1]) then TrimRight(s[..|s| - 1]) else s
  }

  function Trim(s: string): string { TrimRight(TrimLeft(s)) }

  /** Erasing the blanks only. */
  function RemoveBlanks(s: string): string {
    if s == "" then "" else (if s[0] == ' ' then "" else [s[0]]) + RemoveBlanks(s[1..])
  }

  /** Where the blanks that end at p begin, not before lo. */
  function BackOver(s: string, lo: nat, p: nat): (i: nat)
    requires lo <= p <= |s|
    ensures lo <= i <= p && (forall k :: i <= k < p ==> IsSpace(s[k]))
    decreases p
  {
    if p > lo && IsSpace(s[p - 1]) then BackOver(s, lo, p - 1) else p
  }

  function SkipOver(s: string, p: nat): (i: nat)
    requires p <= |s|
    ensures p <= i <= |s| && (forall k :: p <= k < i ==> IsSpace(s[k]))
    decreases |s| - p
  {
    if p < |s| && IsSpace(s[p]) then SkipOver(s, p + 1) else p
  }

  function Letters(s: string): (n: nat)
    ensures n <= |s| && (forall k :: 0 <= k < n ==> IsLetter(s[k])) && (n < |s| ==> !IsLetter(s[n]))
  {
    if s != "" && IsLetter(s[0]) then 1 + Letters(s[1..]) else 0
  }

  datatype Match = NoMatch | Matched(letters: string, rest: string)

  /** Letters, white space, then a digit and anything but a line end. */
  function MatchPrefix(first: string): Match {
    var n := Letters(first);
    var d := SkipOver(first, n);
    if n > 0 && d < |first| && IsDigit(first[d]) &&
        (forall k :: d <= k < |first| ==> first[k] != '\n' && first[k] != '\r')
    then Matched(first[..n], first[d..]) else NoMatch
  }

  // ----- What the white space amounts to -----

  /** The only white space is the blank. */
  predicate OnlyBlanks(s: string) { forall c <- s :: IsSpace(c) ==> c == ' ' }

  lemma {:induction false} CollapseFact(s: string)
    ensures RemoveSpace(Collapse(s)) == RemoveSpace(s) && OnlyBlanks(Collapse(s))
  {
    if s != "" {
      CollapseFact(s[1..]);
      if !IsSpace(s[0]) {
        RemoveSpaceAppend([s[0]], Collapse(s[1..]));
      } else {
        RemoveSpaceAppend(" ", Collapse(s[1..]));
      }
    }
  }

  lemma {:induction false} TrimLeftFact(s: string)
    requires OnlyBlanks(s)
    ensures RemoveSpace(TrimLeft(s)) == RemoveSpace(s) && OnlyBlanks(TrimLeft(s))
    ensures TrimLeft(s) != "" ==> !IsSpace(TrimLeft(s)[0])
  {
    if s != "" && Trimmable(s[0]) {
      TrimLeftFact(s[1..]);
    }
  }

  lemma {:induction false} TrimRightFact(s: string)
    requires OnlyBlanks(s)
    ensures RemoveSpace(TrimRight(s)) == RemoveSpace(s) && OnlyBlanks(TrimRight(s))
    ensures TrimRight(s) <= s
    ensures TrimRight(s) != "" ==> !IsSpace(TrimRight(s)[|TrimRight(s)| - 1])
  {
    if s != "" && Trimmable(s[|s| - 1]) {
      TrimRightFact(s[..|s| - 1]);
      RemoveSpaceAppend(s[..|s| - 1], [s[|s| - 1]]);
      assert s == s[..|s| - 1] + [s[|s| - 1]];
    }
  }

  lemma TrimFact(s: string)
    requires OnlyBlanks(s)
    ensures RemoveSpace(Trim(s)) == RemoveSpace(s) && OnlyBlanks(Trim(s))
    ensures Trim(s) == "" <==> RemoveSpace(s) == ""
    ensures Trim(s) != "" ==> !IsSpace(Trim(s)[0])
  {
    TrimLeftFact(s);
    TrimRightFact(TrimLeft(s));
    if Trim(s) != "" {
      assert RemoveSpace(Trim(s))[0] == Trim(s)[0];
    }
  }

  lemma {:induction false} RemoveBlanksFact(s: string)
    requires OnlyBlanks(s)
    ensures RemoveBlanks(s) == RemoveSpace(s)
  {
    if s != "" {
      RemoveBlanksFact(s[1..]);
    }
  }

  lemma {:induction false} AllSpace(s: string)
    requires forall k :: 0 <= k < |s| ==> IsSpace(s[k])
    ensures RemoveSpace(s) == ""
  {
    if s != "" {
      AllSpace(s[1..]);
    }
  }

  lemma {:induction false} SameNoX(t: string)
    ensures (exists c <- t :: IsX(c)) <==> IndexX(t) < |t|
  {
    if IndexX(t) < |t| {
      assert t[IndexX(t)] in t;
    }
  }

  lemma IndexXAt(t: string, p: nat)
    requires p < |t| && IsX(t[p]) && forall i :: 0 <= i < p ==> !IsX(t[i])
    ensures IndexX(t) == p
  {
  }

  lemma SectionsCut(a: string, x: char, b: string)
    requires IsX(x) && forall c <- a :: !IsX(c)
    ensures Sections(a + [x] + b) == NonEmpty(a) + Sections(b)
  {
    var t := a + [x] + b;
    assert forall i :: 0 <= i < |a| ==> t[i] == a[i] && a[i] in a;
    IndexXAt(t, |a|);
    assert t[..|a|] == a && t[|a| + 1..] == b;
  }

  lemma SectionsWhole(a: string)
    requires forall c <- a :: !IsX(c)
    ensures Sections(a) == NonEmpty(a)
  {
    SameNoX(a);
  }

  function Despaced(parts: seq<string>): seq<string> {
    seq(|parts|, i requires 0 <= i < |parts| => RemoveSpace(parts[i]))
  }

  lemma Gap(gap: string, s: string)
    requires RemoveSpace(gap) == ""
    ensures RemoveSpace(gap + s) == RemoveSpace(s)
  {
    RemoveSpaceAppend(gap, s);
  }

  lemma DespaceAroundX(a: string, before: string, x: char, after: string, b: string)
    requires IsX(x) && RemoveSpace(before) == "" && RemoveSpace(after) == ""
    ensures RemoveSpace(a + (before + ([x] + (after + b)))) == RemoveSpace(a) + [x] + RemoveSpace(b)
  {
    var t1 := after + b;
    Gap(after, b);
    var t2 := [x] + t1;
    RemoveSpaceAppend([x], t1);
    RemoveSpaceSpaceless([x]);
    var t3 := before + t2;
    Gap(before, t2);
    RemoveSpaceAppend(a, t3);
    assert RemoveSpace(a) + ([x] + RemoveSpace(b)) == RemoveSpace(a) + [x] + RemoveSpace(b);
  }

  /** Around a separator, white space counts for nothing. */
  lemma CutAtX(a: string, before: string, x: char, after: string, b: string)
    requires IsX(x) && RemoveSpace(before) == "" && RemoveSpace(after) == ""
    requires forall c <- a :: !IsX(c)
    ensures Sections(RemoveSpace(a + (before + ([x] + (after + b))))) ==
        NonEmpty(RemoveSpace(a)) + Sections(RemoveSpace(b))
  {
    DespaceAroundX(a, before, x, after, b);
    var t, u := RemoveSpace(a), RemoveSpace(b);
    assert forall c <- t :: !IsX(c) by {
      RemoveSpaceSpaceless(a);
    }
    SectionsCut(t, x, u);
  }

  lemma TokenFact(raw: string, pos: nat, p: nat, e: nat)
    requires pos <= |raw| && p == pos + IndexX(raw[pos..])
    requires e == if p < |raw| then BackOver(raw, pos, p) else p
    ensures p == |raw| ==> Sections(RemoveSpace(raw[pos..])) == NonEmpty(RemoveSpace(raw[pos..e]))
    ensures p < |raw| ==> Sections(RemoveSpace(raw[pos..]))
                          == NonEmpty(RemoveSpace(raw[pos..e])) + Sections(RemoveSpace(raw[SkipOver(raw, p + 1)..]))
  {
    var a := raw[pos..e];
    NoXBefore(raw, pos, p, e);
    if p == |raw| {
      assert raw[pos..] == a;
      RemoveSpaceSpaceless(a);
      SectionsWhole(RemoveSpace(a));
    } else {
      var q := SkipOver(raw, p + 1);
      AllSpace(raw[e..p]);
      AllSpace(raw[p + 1..q]);
      hide RemoveSpace, Sections;
      CutAtX(a, raw[e..p], raw[p], raw[p + 1..q], raw[q..]);
      FiveParts(raw, pos, e, p, q);
    }
  }

  lemma NoXBefore(raw: string, pos: nat, p: nat, e: nat)
    requires pos <= |raw| && p == pos + IndexX(raw[pos..]) && pos <= e <= p
    ensures forall c <- raw[pos..e] :: !IsX(c)
    ensures p < |raw| ==> IsX(raw[p])
  {
    assert forall k :: pos <= k < |raw| ==> raw[pos..][k - pos] == raw[k];
    forall c | c in raw[pos..e] ensures !IsX(c) {
      var k :| 0 <= k < |raw[pos..e]| && raw[pos..e][k] == c;
      assert raw[pos..][k] == c;
    }
  }

  lemma FiveParts(s: string, pos: nat, e: nat, p: nat, q: nat)
    requires pos <= e <= p < q <= |s|
    ensures s[pos..] == s[pos..e] + (s[e..p] + ([s[p]] + (s[p + 1..q] + s[q..])))
  {
  }

  lemma DespacedSnoc(parts: seq<string>, part: string)
    ensures Despaced(parts + [part]) == Despaced(parts) + [RemoveSpace(part)]
  {
  }

  /** Taking one token off the front of what is left keeps parts and rest together. */
  lemma TokenStep(parts: seq<string>, token: string, left: seq<string>, later: seq<string>, all: seq<string>)
    requires Despaced(parts) + left == all
    requires left == NonEmpty(RemoveSpace(token)) + later
    ensures Despaced(if RemoveSpace(token) != "" then parts + [token] else parts) + later == all
  {
    if RemoveSpace(token) != "" {
      DespacedSnoc(parts, token);
      Associate(Despaced(parts), RemoveSpace(token), later);
    } else {
      assert left == later;
    }
  }

  lemma Associate(a: seq<string>, x: string, b: seq<string>)
    ensures a + ([x] + b) == a + [x] + b
  {
  }

  /** One turn of the token loop. */
  lemma Taken(raw: string, pos: nat, p: nat, e: nat, parts: seq<string>)
    requires OnlyBlanks(raw) && pos <= |raw| && p == pos + IndexX(raw[pos..])
    requires e == if p < |raw| then BackOver(raw, pos, p) else p
    ensures var token := Trim(raw[pos..e]);
            var later := if p < |raw| then Sections(RemoveSpace(raw[SkipOver(raw, p + 1)..])) else [];
            && Despaced(if token != "" then parts + [token] else parts) + later
               == Despaced(parts) + Sections(RemoveSpace(raw[pos..]))
            && (token != "" ==> Token(token))
  {
    var token := Trim(raw[pos..e]);
    var later := if p < |raw| then Sections(RemoveSpace(raw[SkipOver(raw, p + 1)..])) else [];
    TokenFact(raw, pos, p, e);
    assert OnlyBlanks(raw[pos..e]);
    TrimFact(raw[pos..e]);
    hide RemoveSpace, Sections, Trim, NonEmpty, IndexX, BackOver, SkipOver;
    var left := Sections(RemoveSpace(raw[pos..]));
    assert left == NonEmpty(RemoveSpace(token)) + later;
    TokenStep(parts, token, left, later, Despaced(parts) + left);
  }

  predicate Token(part: string) { OnlyBlanks(part) && part != "" && !IsSpace(part[0]) }

  /** The token loop: the parts are the sections of the text, their inner blanks still in place. */
  method SplitParts(raw: string) returns (parts: seq<string>)
    requires OnlyBlanks(raw)
    ensures Despaced(parts) == Sections(RemoveSpace(raw))
    ensures forall part <- parts :: Token(part)
  {
    parts := [];
    var pos, more := 0, true;
    ghost var left := Sections(RemoveSpace(raw));
    assert raw[0..] == raw && Despaced([]) == [];
    hide RemoveSpace, Sections, Trim, Despaced, Token, OnlyBlanks, BackOver, SkipOver;
    while more
      invariant pos <= |raw|
      invariant Despaced(parts) + left == Sections(RemoveSpace(raw))
      invariant left == if more then Sections(RemoveSpace(raw[pos..])) else []
      invariant forall part <- parts :: Token(part)
      decreases more, |raw| - pos
    {
      var p := pos + IndexX(raw[pos..]);
      var e := if p < |raw| then BackOver(raw, pos, p) else p;
      var token := Trim(raw[pos..e]);
      Taken(raw, pos, p, e, parts);
      left := if p < |raw| then Sections(RemoveSpace(raw[SkipOver(raw, p + 1)..])) else [];
      if token != "" {
        parts := parts + [token];
      }
      if p < |raw| {
        pos := SkipOver(raw, p + 1);
      } else {
        more := false;
      }
    }
  }

  function Slashed(parts: seq<string>): seq<string> {
    seq(|parts|, i requires 0 <= i < |parts| => Slash(parts[i]))
  }

  lemma {:induction false} JoinSnoc(parts: seq<string>, part: string)
    ensures JoinX(parts + [part]) == if parts == [] then part else JoinX(parts) + "x" + part
  {
    if |parts| > 0 {
      assert (parts + [part])[1..] == parts[1..] + [part];
      JoinSnoc(parts[1..], part);
    }
  }

  /** The joining loop. */
  method JoinDims(dims: seq<string>) returns (joined: string)
    requires forall dim <- dims :: OnlyBlanks(dim) && RemoveSpace(dim) != ""
    ensures joined == JoinX(Slashed(Despaced(dims)))
    ensures dims != [] ==> joined != ""
  {
    joined := "";
    for n := 0 to |dims|
      invariant joined == JoinX(Slashed(Despaced(dims[..n])))
      invariant n > 0 ==> joined != ""
    {
      var dim := dims[n];
      RemoveBlanksFact(dim);
      dim := Slash(RemoveBlanks(dim));
      assert dims[..n + 1] == dims[..n] + [dims[n]];
      assert Slashed(Despaced(dims[..n + 1])) == Slashed(Despaced(dims[..n])) + [dim];
      JoinSnoc(Slashed(Despaced(dims[..n])), dim);
      if dim != "" {
        if joined != "" {
          joined := joined + "x";
        }
        joined := joined + dim;
      }
    }
    assert dims[..|dims|] == dims;
  }

  /** The letters, white space and the rest: without the white space, the letters then the rest. */
  lemma MatchRest(first: string)
    ensures var n := Letters(first); RemoveSpace(first) == first[..n] + RemoveSpace(first[SkipOver(first, n)..])
  {
    var n := Letters(first);
    var d := SkipOver(first, n);
    ThreeParts(first, n, d);
    DespaceRest(first[..n], first[n..d], first[d..]);
  }

  /** The rest starts with what is no white space. */
  lemma RestStarts(first: string, n: nat)
    requires n <= |first| && SkipOver(first, n) < |first|
    ensures var d := SkipOver(first, n);
            !IsSpace(first[d]) && RemoveSpace(first[d..]) != "" && RemoveSpace(first[d..])[0] == first[d]
  {
    SkipStops(first, n);
    FirstStays(first[SkipOver(first, n)..]);
  }

  lemma DespaceRest(head: string, gap: string, tail: string)
    requires forall k :: 0 <= k < |head| ==> IsLetter(head[k])
    requires forall k :: 0 <= k < |gap| ==> IsSpace(gap[k])
    ensures RemoveSpace(head + (gap + tail)) == head + RemoveSpace(tail)
  {
    var t := gap + tail;
    AllSpace(gap);
    Gap(gap, tail);
    RemoveSpaceAppend(head, t);
    LettersSpaceless(head);
  }

  lemma ThreeParts(s: string, n: nat, d: nat)
    requires n <= d <= |s|
    ensures s == s[..n] + (s[n..d] + s[d..])
  {
  }

  lemma LettersSpaceless(s: string)
    requires forall k :: 0 <= k < |s| ==> IsLetter(s[k])
    ensures RemoveSpace(s) == s
  {
    RemoveSpaceSpaceless(s);
  }

  lemma FirstStays(s: string)
    requires s != "" && !IsSpace(s[0])
    ensures RemoveSpace(s) != "" && RemoveSpace(s)[0] == s[0]
  {
  }

  lemma BlanksOnlyLines(s: string)
    requires OnlyBlanks(s)
    ensures forall k :: 0 <= k < |s| ==> s[k] != '\n' && s[k] != '\r'
  {
    assert forall k :: 0 <= k < |s| ==> s[k] in s;
  }

  /** The prefix expression matches an H section exactly when the text without white space is one. */
  lemma MatchFact(first: string)
    requires Token(first)
    ensures var m := MatchPrefix(first);
            && (m.Matched? ==> RemoveSpace(first) == m.letters + RemoveSpace(m.rest)
                               && OnlyBlanks(m.rest) && RemoveSpace(m.rest) != ""
                               && forall c <- m.letters :: IsLetter(c))
            && (IsH(RemoveSpace(first)) <==> m.Matched? && (m.letters == "H" || m.letters == "h"))
  {
    MatchRest(first);
    BlanksOnlyLines(first);
    FirstStays(first);
    var n := Letters(first);
    var d := SkipOver(first, n);
    var t := RemoveSpace(first);
    if d < |first| {
      RestStarts(first, n);
    } else {
      assert t == first[..n];
    }
    hide RemoveSpace, Letters, SkipOver;
    assert forall c <- first[d..] :: c in first;
    if d < |first| {
      HOrNot(first[..n], RemoveSpace(first[d..]));
    } else {
      LettersOnly(first[..n]);
    }
  }

  /** Letters, then something else: an H section exactly when the letter is H alone and a digit follows. */
  lemma HOrNot(letters: string, rest: string)
    requires forall k :: 0 <= k < |letters| ==> IsLetter(letters[k])
    requires rest != "" && (letters == "" ==> !IsLetter(rest[0]))
    ensures IsH(letters + rest) <==> (letters == "H" || letters == "h") && IsDigit(rest[0])
  {
    var t := letters + rest;
    if letters == "" {
      assert t[0] == rest[0];
    } else if |letters| == 1 {
      assert t[0] == letters[0] && t[1] == rest[0];
    } else {
      assert t[1] == letters[1];
    }
  }

  lemma LettersOnly(letters: string)
    requires forall k :: 0 <= k < |letters| ==> IsLetter(letters[k])
    ensures !IsH(letters)
  {
  }

  lemma {:induction false} SkipStops(s: string, p: nat)
    requires p <= |s|
    ensures SkipOver(s, p) < |s| ==> !IsSpace(s[SkipOver(s, p)])
    decreases |s| - p
  {
    if p < |s| && IsSpace(s[p]) {
      SkipStops(s, p + 1);
    }
  }

  lemma JoinSlash(parts: seq<string>)
    ensures JoinX(Slashed(parts)) == Slash(JoinX(parts))
  {
    if |parts| > 1 {
      JoinSlash(parts[1..]);
      assert Slashed(parts)[1..] == Slashed(parts[1..]);
      assert Slash(parts[0] + "x" + JoinX(parts[1..])) == Slash(parts[0]) + "x" + Slash(JoinX(parts[1..]));
    } else if |parts| == 1 {
      assert Slashed(parts)[0] == Slash(parts[0]);
    }
  }

  function ToUpper(s: string): string {
    seq(|s|, i requires 0 <= i < |s| => if 'a' <= s[i] <= 'z' then (s[i] as int - 32) as char else s[i])
  }

  lemma NoX(t: string)
    requires t != "" && forall c <- t :: !IsX(c)
    ensures Canon(t) == Slash(t)
  {
    SectionsWhole(t);
  }

  lemma {:induction false} OnlyXs(t: string)
    requires Sections(t) == []
    ensures (forall c <- t :: IsX(c)) && Slash(t) == t
  {
    AllX(t);
    assert forall i :: 0 <= i < |t| ==> t[i] in t;
  }

  lemma StartsWithX(t: string)
    requires t != "" && Sections(t) == []
    ensures IsX(t[0]) && Sections(t[1..]) == []
  {
    var p := IndexX(t);
    assert p < |t| && NonEmpty(t[..p]) == [];
    assert p == 0;
  }

  lemma {:induction false} AllX(t: string)
    requires Sections(t) == []
    ensures forall c <- t :: IsX(c)
    decreases |t|
  {
    if t != "" {
      StartsWithX(t);
      hide Sections;
      AllX(t[1..]);
      assert forall c <- t :: c == t[0] || c in t[1..];
    }
  }

  lemma UpperH(s: string)
    ensures ToUpper(s) == "H" <==> s == "H" || s == "h"
  {
    if |s| == 1 {
      assert ToUpper(s)[0] == 'H' <==> s[0] == 'H' || s[0] == 'h';
    }
  }

  lemma JoinUnfold(parts: seq<string>)
    requires parts != []
    ensures JoinX(parts) == if |parts| == 1 then parts[0] else parts[0] + "x" + JoinX(parts[1..])
  {
  }

  lemma HeadFirst(head: string, a: string, x: string, rest: string)
    ensures head + (a + x + rest) == head + a + x + rest
  {
  }

  lemma JoinHead(head: string, parts: seq<string>)
    requires parts != []
    ensures head + JoinX(parts) == JoinX([head + parts[0]] + parts[1..])
  {
    hide JoinX;
    var all := [head + parts[0]] + parts[1..];
    assert all[0] == head + parts[0] && all[1..] == parts[1..];
    JoinUnfold(parts);
    JoinUnfold(all);
    HeadFirst(head, parts[0], "x", JoinX(parts[1..]));
  }

  /** Putting the prefix before the joined dimensions gives the kept sections, joined. */
  lemma Assemble(sections: seq<string>, prefix: string, dims: seq<string>, joined: string)
    requires sections != [] && |dims| == |Kept(sections)|
    requires prefix + RemoveSpace(dims[0]) == sections[0] && forall c <- prefix :: c != '/'
    requires forall i :: 1 <= i < |dims| ==> RemoveSpace(dims[i]) == sections[i]
    requires joined == JoinX(Slashed(Despaced(dims)))
    ensures prefix + joined == Slash(JoinX(Kept(sections)))
  {
    var parts := Slashed(Despaced(dims));
    JoinHead(prefix, parts);
    assert [prefix + parts[0]] + parts[1..] == Slashed(Kept(sections)) by {
      assert forall i :: 0 <= i < |prefix| ==> prefix[i] in prefix;
      assert Slash(sections[0]) == Slash(prefix) + Slash(RemoveSpace(dims[0]));
      assert Slash(prefix) == prefix;
    }
    JoinSlash(Kept(sections));
  }

  /** The first part, taken apart by the prefix expression. */
  method FirstDim(first: string) returns (prefix: string, firstDim: string)
    requires Token(first)
    ensures prefix + RemoveSpace(firstDim) == RemoveSpace(first)
    ensures OnlyBlanks(firstDim) && RemoveSpace(firstDim) != ""
    ensures forall c <- prefix :: c != '/'
    ensures ToUpper(prefix) == "H" <==> IsH(RemoveSpace(first))
  {
    MatchFact(first);
    FirstStays(first);
    var m := MatchPrefix(first);
    if m.Matched? {
      TrimFact(m.rest);
      prefix, firstDim := m.letters, Trim(m.rest);
    } else {
      RemoveBlanksFact(first);
      RemoveSpaceSpaceless(first);
      RemoveSpaceSpaceless(RemoveSpace(first));
      prefix, firstDim := "", RemoveBlanks(first);
    }
    UpperH(prefix);
  }

  /** The part of the source after the token loop. */
  method AssembleParts(parts: seq<string>, ghost sections: seq<string>) returns (normalized: string)
    requires parts != [] && Despaced(parts) == sections
    requires forall part <- parts :: Token(part)
    ensures normalized == Slash(JoinX(Kept(sections)))
  {
    hide RemoveSpace, JoinX, Slash, Token, OnlyBlanks, IsH, ToUpper;
    var first, rest := parts[0], parts[1..];
    var prefix, firstDim := FirstDim(first);
    var dims := [firstDim] + rest;
    if ToUpper(prefix) == "H" && |dims| >= 2 {
      dims := dims[..2];
    }
    RestDims(parts, dims, sections);
    var joined := JoinDims(dims);
    Assemble(sections, prefix, dims, joined);
    normalized := if prefix == "" then joined else prefix + joined;
    assert "" + joined == joined;
  }

  lemma RestDims(parts: seq<string>, dims: seq<string>, sections: seq<string>)
    requires Despaced(parts) == sections && 0 < |dims| <= |parts|
    requires forall i :: 1 <= i < |dims| ==> dims[i] == parts[i]
    requires OnlyBlanks(dims[0]) && RemoveSpace(dims[0]) != ""
    requires forall part <- parts :: Token(part)
    ensures forall i :: 1 <= i < |dims| ==> RemoveSpace(dims[i]) == sections[i]
    ensures forall dim <- dims :: OnlyBlanks(dim) && RemoveSpace(dim) != ""
  {
    forall i | 1 <= i < |dims|
      ensures OnlyBlanks(dims[i]) && RemoveSpace(dims[i]) != "" && RemoveSpace(dims[i]) == sections[i]
    {
      assert Token(parts[i]);
      FirstStays(parts[i]);
    }
  }

  /** The source, step by step. */
  method MtStandNormalize(mt_stand_raw: string) returns (normalized: string)
    ensures normalized == Normal(mt_stand_raw)
  {
    if mt_stand_raw == "" {
      return "Unknown";
    }
    ghost var t := RemoveSpace(mt_stand_raw);
    var raw := Collapse(mt_stand_raw);
    CollapseFact(mt_stand_raw);
    TrimFact(raw);
    raw := Trim(raw);
    RemoveBlanksFact(raw);
    if raw == "" {
      return "";
    }
    if !(exists c <- raw :: IsX(c)) {
      RemoveSpaceSpaceless(raw);
      NoX(t);
      return Slash(RemoveBlanks(raw));
    }
    var parts := SplitParts(raw);
    if parts == [] {
      OnlyXs(t);
      return Slash(RemoveBlanks(raw));
    }
    normalized := AssembleParts(parts, Sections(t));
  }

  // ----- What the short form promises -----

  lemma {:induction false} SectionsFact(t: string)
    requires Spaceless(t)
    ensures forall section <- Sections(t) :: section != "" && Spaceless(section) && forall c <- section :: !IsX(c)
    decreases |t|
  {
    var p := IndexX(t);
    if p < |t| {
      SectionsFact(t[p + 1..]);
      assert forall c <- t[..p] :: c in t && !IsX(c);
    } else {
      assert forall c <- t :: !IsX(c);
    }
  }

  ghost predicate Plain(part: string) {
    part != "" && Spaceless(part) && forall c <- part :: !IsX(c)
  }

  /** Joining plain parts and taking the sections gives the parts back. */
  lemma {:induction false} SectionsOfJoin(parts: seq<string>)
    requires parts != [] && forall part <- parts :: Plain(part)
    ensures Sections(JoinX(parts)) == parts && Spaceless(JoinX(parts)) && JoinX(parts) != ""
  {
    assert Plain(parts[0]);
    if |parts| == 1 {
      SectionsWhole(parts[0]);
    } else {
      SectionsOfJoin(parts[1..]);
      SectionsCut(parts[0], 'x', JoinX(parts[1..]));
      assert parts == [parts[0]] + parts[1..];
    }
  }

  lemma SlashFact(s: string)
    ensures Slash(Slash(s)) == Slash(s) && '/' !in Slash(s)
    ensures Spaceless(s) ==> Spaceless(Slash(s))
    ensures Plain(s) ==> Plain(Slash(s))
    ensures IsH(Slash(s)) <==> IsH(s)
  {
    var u := Slash(s);
    assert forall i :: 0 <= i < |s| ==> s[i] in s;
    forall c | c in u ensures c != '/' && (Spaceless(s) ==> !IsSpace(c)) && (Plain(s) ==> !IsX(c)) {
      var i :| 0 <= i < |u| && u[i] == c;
    }
  }

  /** The sections of a short form are the kept sections of the text, with '_' for '/'. */
  lemma CanonSections(t: string)
    requires Spaceless(t) && Sections(t) != []
    ensures Sections(Canon(t)) == Slashed(Kept(Sections(t)))
    ensures Spaceless(Canon(t)) && Canon(t) != "" && '/' !in Canon(t)
  {
    var kept := Kept(Sections(t));
    SectionsFact(t);
    var parts := Slashed(kept);
    forall part | part in parts ensures Plain(part) {
      var i :| 0 <= i < |parts| && parts[i] == part;
      SlashFact(kept[i]);
    }
    JoinSlash(kept);
    SectionsOfJoin(parts);
    SlashFact(JoinX(kept));
  }

  lemma CanonTwice(t: string)
    requires Spaceless(t)
    ensures Canon(Canon(t)) == Canon(t)
  {
    if Sections(t) != [] {
      var kept := Kept(Sections(t));
      CanonSections(t);
      SlashFact(kept[0]);
      assert Kept(Slashed(kept)) == Slashed(kept);
      JoinSlash(kept);
      SlashFact(JoinX(kept));
    }
  }

  /**
   White space counts for nothing: the short form is that of the text without white space.
   It holds of every text but a blank one, where the source answers "" instead of "Unknown".
   */
  lemma {:induction false} WhiteSpaceIgnored(raw: string)
    ensures Normal(raw) == Normal(RemoveSpace(raw)) <==> raw == "" || NonBlank(raw)
    ensures Normal("") == "Unknown"
  {
    RemoveSpaceSpaceless(raw);
    RemoveSpaceSpaceless(RemoveSpace(raw));
  }

  /** Normalising twice is normalising once, for every text but a blank one. */
  lemma {:induction false} Idempotent(raw: string)
    ensures Normal(Normal(raw)) == Normal(raw) <==> raw == "" || NonBlank(raw)
  {
    if raw == "" {
      UnknownFixed();
    } else {
      var t := RemoveSpace(raw);
      RemoveSpaceSpaceless(raw);
      CanonTwice(t);
      if t != "" {
        if Sections(t) != [] {
          CanonSections(t);
        }
        RemoveSpaceSpaceless(Canon(t));
      }
    }
  }

  lemma UnknownFixed()
    ensures Normal("Unknown") == "Unknown"
  {
    PlainFixed("Unknown");
  }

  lemma PlainFixed(s: string)
    requires Plain(s) && '/' !in s
    ensures Normal(s) == s
  {
    RemoveSpaceSpaceless(s);
    NoX(s);
    assert Slash(s) == s;
  }

  /**
   The short form of a text that is not blank can name a directory: it is not empty, and has no
   white space and no '/'.
   */
  lemma {:induction false} NamesADirectory(raw: string)
    requires NonBlank(raw)
    ensures Normal(raw) != "" && Spaceless(Normal(raw)) && '/' !in Normal(raw)
  {
    RemoveSpaceSpaceless(raw);
    var t := RemoveSpace(raw);
    if Sections(t) == [] {
      OnlyXs(t);
    } else {
      CanonSections(t);
    }
  }

  /** Empty exactly for the blank texts other than "". */
  lemma {:induction false} EmptyWhenBlank(raw: string)
    ensures Normal(raw) == "" <==> raw != "" && !NonBlank(raw)
  {
    if NonBlank(raw) {
      NamesADirectory(raw);
    } else {
      RemoveSpaceSpaceless(raw);
    }
  }

  /** An H standard keeps at most two dimensions, and the two it keeps are its first two. */
  lemma {:induction false} HKeepsTwo(raw: string)
    requires raw != "" && Sections(RemoveSpace(raw)) != [] && IsH(Sections(RemoveSpace(raw))[0])
    ensures |Sections(Normal(raw))| <= 2
    ensures Sections(Normal(raw)) <= Slashed(Sections(RemoveSpace(raw)))
    ensures |Sections(RemoveSpace(raw))| >= 2 ==> |Sections(Normal(raw))| == 2
  {
    RemoveSpaceSpaceless(raw);
    CanonSections(RemoveSpace(raw));
  }

  /** Any other standard keeps all of its sections. */
  lemma {:induction false} OthersKeepAll(raw: string)
    requires raw != "" && Sections(RemoveSpace(raw)) != [] && !IsH(Sections(RemoveSpace(raw))[0])
    ensures Sections(Normal(raw)) == Slashed(Sections(RemoveSpace(raw)))
  {
    RemoveSpaceSpaceless(raw);
    CanonSections(RemoveSpace(raw));
  }

  // ----- The short form, told without sections -----

  /** Letters x of either case, and nothing else. */
  predicate XRun(s: string) { forall c <- s :: c == 'x' || c == 'X' }

  predicate Dim(s: string) { s != "" && 'x' !in s && 'X' !in s }

  /** Dimensions with letters x before, between and after them. */
  ghost predicate Layout(lead: string, dims: seq<string>, gaps: seq<string>) {
    && |gaps| == |dims| && XRun(lead) && (forall dim <- dims :: Dim(dim)) && (forall gap <- gaps :: XRun(gap))
    && forall i :: 0 <= i < |dims| - 1 ==> gaps[i] != ""
  }

  function Spread(lead: string, dims: seq<string>, gaps: seq<string>): string
    requires |gaps| == |dims|
    decreases |dims|
  {
    if dims == [] then lead else lead + (dims[0] + Spread(gaps[0], dims[1..], gaps[1..]))
  }

  lemma LayoutRest(lead: string, dims: seq<string>, gaps: seq<string>)
    requires Layout(lead, dims, gaps) && dims != []
    ensures Layout(gaps[0], dims[1..], gaps[1..])
  {
    forall i | 0 <= i < |dims| - 2 ensures gaps[1..][i] != "" {
      assert gaps[1..][i] == gaps[i + 1];
    }
  }

  lemma LayoutCons(lead: string, dim: string, gap: string, dims: seq<string>, gaps: seq<string>)
    requires XRun(lead) && Dim(dim) && Layout(gap, dims, gaps) && (gap != "" || dims == [])
    ensures Layout(lead, [dim] + dims, [gap] + gaps)
    ensures Spread(lead, [dim] + dims, [gap] + gaps) == lead + (dim + Spread(gap, dims, gaps))
  {
    assert ([dim] + dims)[1..] == dims && ([gap] + gaps)[1..] == gaps;
  }

  /** Every text can be taken apart like that. */
  lemma {:induction false} TakeApart(t: string) returns (lead: string, dims: seq<string>, gaps: seq<string>)
    ensures Layout(lead, dims, gaps) && Spread(lead, dims, gaps) == t
  {
    if t == "" {
      lead, dims, gaps := "", [], [];
    } else {
      lead, dims, gaps := TakeApart(t[1..]);
      assert t == [t[0]] + t[1..];
      if t[0] == 'x' || t[0] == 'X' {
        LeadCons(t[0], lead, dims, gaps);
        lead := [t[0]] + lead;
      } else if lead == "" && dims != [] {
        LayoutRest(lead, dims, gaps);
        DimCons(t[0], dims[0]);
        LayoutCons("", [t[0]] + dims[0], gaps[0], dims[1..], gaps[1..]);
        Front(t[0], dims[0], Spread(gaps[0], dims[1..], gaps[1..]));
        dims, gaps := [[t[0]] + dims[0]] + dims[1..], [gaps[0]] + gaps[1..];
      } else {
        LayoutCons("", [t[0]], lead, dims, gaps);
        assert "" + ([t[0]] + t[1..]) == t;
        lead, dims, gaps := "", [[t[0]]] + dims, [lead] + gaps;
      }
    }
  }

  lemma LeadCons(x: char, lead: string, dims: seq<string>, gaps: seq<string>)
    requires Layout(lead, dims, gaps) && (x == 'x' || x == 'X')
    ensures Layout([x] + lead, dims, gaps)
    ensures Spread([x] + lead, dims, gaps) == [x] + Spread(lead, dims, gaps)
  {
    if dims != [] {
      Front(x, lead, dims[0] + Spread(gaps[0], dims[1..], gaps[1..]));
    }
  }

  lemma DimCons(c: char, dim: string)
    requires Dim(dim) && c != 'x' && c != 'X'
    ensures Dim([c] + dim)
  {
  }

  lemma Front(c: char, a: string, b: string)
    ensures [c] + (a + b) == ([c] + a) + b
  {
  }

  lemma XRunRest(s: string)
    requires XRun(s) && s != ""
    ensures XRun(s[1..]) && (s[0] == 'x' || s[0] == 'X')
  {
    assert s[0] in s;
    assert forall c <- s[1..] :: c in s;
  }

  lemma {:induction false} SectionsAfter(lead: string, b: string)
    requires XRun(lead)
    ensures Sections(lead + b) == Sections(b)
  {
    hide Sections;
    if lead == "" {
      assert lead + b == b;
    } else {
      XRunRest(lead);
      SectionsAfter(lead[1..], b);
      SectionsCut("", lead[0], lead[1..] + b);
      assert "" + [lead[0]] + (lead[1..] + b) == lead + b;
      assert NonEmpty("") + Sections(lead[1..] + b) == Sections(lead[1..] + b);
    }
  }

  /** The dimensions are the sections. */
  lemma {:induction false} SectionsOfSpread(lead: string, dims: seq<string>, gaps: seq<string>)
    requires Layout(lead, dims, gaps)
    ensures Sections(Spread(lead, dims, gaps)) == dims
    decreases |dims|
  {
    if dims == [] {
      SectionsAfter(lead, "");
      assert lead + "" == lead;
    } else {
      var dim, gap := dims[0], gaps[0];
      var rest := Spread(gap, dims[1..], gaps[1..]);
      SectionsAfter(lead, dim + rest);
      LayoutRest(lead, dims, gaps);
      SectionsOfSpread(gap, dims[1..], gaps[1..]);
      assert Dim(dim);
      hide Sections, Spread;
      SpreadStarts(gap, dims[1..], gaps[1..]);
      DimThenGap(dim, rest);
      assert [dim] + dims[1..] == dims;
    }
  }

  /** What follows a dimension starts with a letter x, if there is anything. */
  lemma SpreadStarts(gap: string, dims: seq<string>, gaps: seq<string>)
    requires |gaps| == |dims| && XRun(gap) && (gap != "" || dims == [])
    ensures var rest := Spread(gap, dims, gaps); rest == "" || IsX(rest[0])
  {
    if gap != "" {
      XRunRest(gap);
    }
  }

  lemma DimThenGap(dim: string, rest: string)
    requires Dim(dim) && (rest == "" || IsX(rest[0]))
    ensures Sections(dim + rest) == [dim] + Sections(rest)
  {
    hide Sections;
    assert forall c <- dim :: !IsX(c);
    if rest == "" {
      SectionsWhole(dim);
      SectionsWhole("");
      assert dim + rest == dim;
    } else {
      CutAtGap(dim, rest[0], rest[1..]);
      assert rest == [rest[0]] + rest[1..] && dim + rest == dim + [rest[0]] + rest[1..];
    }
  }

  lemma CutAtGap(dim: string, x: char, b: string)
    requires dim != "" && IsX(x) && forall c <- dim :: !IsX(c)
    ensures Sections(dim + [x] + b) == [dim] + Sections([x] + b)
  {
    hide Sections;
    SectionsCut(dim, x, b);
    SectionsCut("", x, b);
    assert "" + [x] + b == [x] + b && NonEmpty("") + Sections(b) == Sections(b);
  }

  /** The first dimension is the letter H and a digit. */
  predicate StartsH(dims: seq<string>) {
    && dims != [] && |dims[0]| >= 2 && (dims[0][0] == 'H' || dims[0][0] == 'h')
    && (dims[0][1] == '0' || '1' <= dims[0][1] <= '9')
  }

  /**
   For every text that is more than white space and letters x: its dimensions are what the letters
   x, of either case, leave between them once the white space is gone; the short form is the first
   two of them after an H and a digit, all of them otherwise, joined by a small x, with '_' for '/'.
   */
  lemma {:induction false} NormalOfDims(raw: string, lead: string, dims: seq<string>, gaps: seq<string>)
    requires Layout(lead, dims, gaps) && dims != [] && RemoveSpace(raw) == Spread(lead, dims, gaps)
    ensures Normal(raw) == Slash(JoinX(if StartsH(dims) && |dims| > 2 then dims[..2] else dims))
  {
    SectionsOfSpread(lead, dims, gaps);
    RemoveSpaceSpaceless(raw);
    assert raw != "";
    assert |dims| == 2 ==> dims[..2] == dims;
  }

  /** Without a letter x there is one dimension: the text, its white space gone, with '_' for '/'. */
  lemma {:induction false} NoSeparator(raw: string)
    requires NonBlank(raw) && 'x' !in raw && 'X' !in raw
    ensures Normal(raw) == Slash(RemoveSpace(raw))
  {
    RemoveSpaceSpaceless(raw);
    var t := RemoveSpace(raw);
    assert Layout("", [t], [""]) && Spread("", [t], [""]) == t;
    NormalOfDims(raw, "", [t], [""]);
  }

  /** A text of letters x alone is kept as it is, its white space gone. */
  lemma {:induction false} OnlyLettersX(raw: string)
    requires NonBlank(raw) && XRun(RemoveSpace(raw))
    ensures Normal(raw) == RemoveSpace(raw)
  {
    var t := RemoveSpace(raw);
    RemoveSpaceSpaceless(raw);
    assert Layout(t, [], []) && Spread(t, [], []) == t;
    SectionsOfSpread(t, [], []);
    OnlyXs(t);
  }

  /** Erasing the letters x. */
  function WithoutX(s: string): string {
    if s == "" then "" else (if s[0] == 'x' || s[0] == 'X' then "" else [s[0]]) + WithoutX(s[1..])
  }

  lemma {:induction false} WithoutXAppend(a: string, b: string)
    ensures WithoutX(a + b) == WithoutX(a) + WithoutX(b)
  {
    if a == "" {
      assert a + b == b;
    } else {
      assert (a + b)[1..] == a[1..] + b;
      WithoutXAppend(a[1..], b);
    }
  }

  lemma {:induction false} WithoutXFact(s: string)
    ensures XRun(s) ==> WithoutX(s) == ""
    ensures 'x' !in s && 'X' !in s ==> WithoutX(s) == s
  {
    if s != "" {
      WithoutXFact(s[1..]);
      if XRun(s) {
        XRunRest(s);
      }
      assert s == [s[0]] + s[1..];
    }
  }

  lemma {:induction false} WithoutXSlash(s: string)
    ensures WithoutX(Slash(s)) == Slash(WithoutX(s))
  {
    if s != "" {
      WithoutXSlash(s[1..]);
      assert Slash(s)[1..] == Slash(s[1..]);
    }
  }

  function Flat(dims: seq<string>): string { if dims == [] then "" else dims[0] + Flat(dims[1..]) }

  lemma {:induction false} FlatSpread(lead: string, dims: seq<string>, gaps: seq<string>)
    requires Layout(lead, dims, gaps)
    ensures WithoutX(Spread(lead, dims, gaps)) == Flat(dims)
    decreases |dims|
  {
    WithoutXFact(lead);
    if dims != [] {
      var rest := Spread(gaps[0], dims[1..], gaps[1..]);
      LayoutRest(lead, dims, gaps);
      FlatSpread(gaps[0], dims[1..], gaps[1..]);
      WithoutXFact(dims[0]);
      assert Dim(dims[0]);
      hide WithoutX;
      WithoutXAppend(lead, dims[0] + rest);
      WithoutXAppend(dims[0], rest);
    }
  }

  lemma {:induction false} FlatJoin(dims: seq<string>)
    requires forall dim <- dims :: Dim(dim)
    ensures WithoutX(JoinX(dims)) == Flat(dims)
  {
    if dims != [] {
      assert Dim(dims[0]);
      WithoutXFact(dims[0]);
      if |dims| == 1 {
        assert dims[0] + Flat([]) == dims[0];
      } else {
        FlatJoin(dims[1..]);
        WithoutXFact("x");
        var rest := JoinX(dims[1..]);
        hide WithoutX;
        WithoutXAppend(dims[0] + "x", rest);
        WithoutXAppend(dims[0], "x");
        assert dims[0] + "" == dims[0];
      }
    }
  }

  /** A standard that keeps all its dimensions loses nothing but white space and letters x. */
  lemma {:induction false} NothingElseLost(raw: string, lead: string, dims: seq<string>, gaps: seq<string>)
    requires Layout(lead, dims, gaps) && dims != [] && RemoveSpace(raw) == Spread(lead, dims, gaps)
    requires StartsH(dims) ==> |dims| <= 2
    ensures WithoutX(Normal(raw)) == Slash(WithoutX(RemoveSpace(raw)))
  {
    NormalOfDims(raw, lead, dims, gaps);
    FlatSpread(lead, dims, gaps);
    FlatJoin(dims);
    WithoutXSlash(JoinX(dims));
  }

  /** The short form has an underscore exactly when a section it keeps has an underscore or a slash. */
  lemma {:induction false} UnderscoreFrom(raw: string)
    requires NonBlank(raw)
    ensures '_' in Normal(raw) <==>
        exists section <- Kept(Sections(RemoveSpace(raw))) :: '_' in section || '/' in section
  {
    var t := RemoveSpace(raw);
    if Sections(t) == [] {
      OnlyXs(t);
    } else {
      var kept := Kept(Sections(t));
      UnderscoreInJoin(kept);
      UnderscoreInSlash(JoinX(kept));
    }
  }

  lemma UnderscoreInSlash(s: string)
    ensures '_' in Slash(s) <==> '_' in s || '/' in s
  {
    var u := Slash(s);
    if '_' in u {
      var i :| 0 <= i < |u| && u[i] == '_';
      assert s[i] in s;
    }
    if c :| c in s && (c == '_' || c == '/') {
      var i :| 0 <= i < |s| && s[i] == c;
      assert u[i] == '_';
    }
  }

  lemma {:induction false} UnderscoreInJoin(parts: seq<string>)
    ensures ('_' in JoinX(parts) || '/' in JoinX(parts)) <==> exists part <- parts :: '_' in part || '/' in part
  {
    if |parts| > 1 {
      UnderscoreInJoin(parts[1..]);
      assert parts == [parts[0]] + parts[1..];
    }
  }
}
