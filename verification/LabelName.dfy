/**
 Names of labelled defect images. One program prints a name out of the job and the image,
 another splits the name to find the image's directory again.
 */
module LabelName {
  import opened Wrappers
  import opened Text
  import opened Normalizer

  datatype Label = Label(timestamp: string, standard: string, mtNo: string, camera: string, index: string,
                         defect: string)

  function Fields(n: Label): seq<string> {
    [n.timestamp, n.standard, n.mtNo, n.camera, n.index, n.defect]
  }

  // ----- split and join -----

  function IndexOf(s: string, c: char): (p: nat)
    ensures p <= |s| && (p < |s| ==> s[p] == c)
    ensures forall i :: 0 <= i < p ==> s[i] != c
  {
    if s == "" || s[0] == c then 0 else 1 + IndexOf(s[1..], c)
  }

  function Split(s: string, c: char): (parts: seq<string>)
    ensures parts != []
    decreases |s|
  {
    var p := IndexOf(s, c);
    if p == |s| then [s] else [s[..p]] + Split(s[p + 1..], c)
  }

  function Join(parts: seq<string>, c: char): string {
    if parts == [] then "" else if |parts| == 1 then parts[0] else parts[0] + [c] + Join(parts[1..], c)
  }

  /** Everything before the last dot, or the whole name. */
  function BeforeLastDot(s: string): string {
    if '.' !in s then s else if s[|s| - 1] == '.' then s[..|s| - 1] else BeforeLastDot(s[..|s| - 1])
  }

  // ----- print and parse -----

  function Print(n: Label): string {
    Join(Fields(n), '_') + ".jpg"
  }

  /** Without the last four characters. */
  function Stem(row: string): string { if |row| < 4 then "" else row[..|row| - 4] }

  /** The name the copy of a defect image gets: the row names the image as {camera}_{index}.jpg. */
  function DefectName(date: string, standard: string, mtNo: string, row: string): string {
    date + "_" + standard + "_" + mtNo + "_" + Stem(row) + "_x.jpg"
  }

  /** None where the source raises because there are too few parts. */
  function Parse(filename: string): Option<Label> {
    var parts := Split(BeforeLastDot(filename), '_');
    if |parts| < 6 then None else Some(Label(parts[0], parts[1], parts[2], parts[3], parts[4], parts[5]))
  }

  lemma IndexOfFirst(a: string, c: char, b: string)
    requires c !in a
    ensures IndexOf(a + [c] + b, c) == |a|
  {
    var s := a + [c] + b;
    assert s[|a|] == c;
    assert forall i :: 0 <= i < |a| ==> s[i] == a[i] && a[i] in a;
  }

  /** The first fields come back, all of them exactly when none has the separator. */
  lemma {:induction false} SplitJoin(fields: seq<string>, c: char)
    requires fields != []
    ensures fields <= Split(Join(fields, c), c) <==> forall f <- fields :: c !in f
  {
    if c in fields[0] {
      FirstBroken(fields, c);
    } else if |fields| == 1 {
      OneField(fields[0], c);
      assert fields == [fields[0]];
    } else {
      SplitJoin(fields[1..], c);
      FirstWhole(fields, c);
      ConsPrefix(fields[0], fields[1..], Split(Join(fields[1..], c), c));
      CleanRest(fields, c);
    }
  }

  lemma CleanRest(fields: seq<string>, c: char)
    requires fields != []
    ensures [fields[0]] + fields[1..] == fields
    ensures (forall f <- fields :: c !in f) <==> c !in fields[0] && forall f <- fields[1..] :: c !in f
  {
    assert [fields[0]] + fields[1..] == fields;
    assert forall f <- fields :: f == fields[0] || f in fields[1..];
  }

  lemma OneField(s: string, c: char)
    requires c !in s
    ensures Split(s, c) == [s]
  {
    assert forall i :: 0 <= i < |s| ==> s[i] in s;
  }

  lemma FirstWhole(fields: seq<string>, c: char)
    requires |fields| > 1 && c !in fields[0]
    ensures Split(Join(fields, c), c) == [fields[0]] + Split(Join(fields[1..], c), c)
  {
    assert forall i :: 0 <= i < |fields[0]| ==> fields[0][i] in fields[0];
    SplitFirst(fields[0], c, Join(fields[1..], c));
  }

  /** A first field with the separator comes back shorter. */
  lemma FirstBroken(fields: seq<string>, c: char)
    requires fields != [] && c in fields[0]
    ensures !(fields <= Split(Join(fields, c), c)) && fields[0] in fields
  {
    var first, s := fields[0], Join(fields, c);
    var k :| 0 <= k < |first| && first[k] == c;
    assert s[k] == c && IndexOf(s, c) <= k;
    assert |Split(s, c)[0]| < |first|;
  }

  lemma ConsPrefix(x: string, a: seq<string>, b: seq<string>)
    ensures [x] + a <= [x] + b <==> a <= b
  {
    assert ([x] + b)[1..] == b;
    if [x] + a <= [x] + b {
      assert ([x] + a)[1..] == a && ([x] + b)[..|a| + 1][1..] == b[..|a|];
    }
  }

  lemma {:induction false} LastDotBefore(base: string, ext: string)
    requires '.' !in ext
    ensures BeforeLastDot(base + "." + ext) == base
  {
    var s := base + "." + ext;
    assert s[|base|] == '.';
    if ext == "" {
      assert s[..|s| - 1] == base;
    } else {
      assert s[..|s| - 1] == base + "." + ext[..|ext| - 1];
      LastDotBefore(base, ext[..|ext| - 1]);
    }
  }

  lemma LastDot(base: string)
    ensures BeforeLastDot(base + ".jpg") == base
  {
    LastDotBefore(base, "jpg");
    assert base + "." + "jpg" == base + ".jpg";
  }

  lemma Prefix6(a: string, b: string, c: string, d: string, e: string, f: string, parts: seq<string>)
    ensures [a, b, c, d, e, f] <= parts <==>
            |parts| >= 6 && parts[0] == a && parts[1] == b && parts[2] == c && parts[3] == d && parts[4] == e &&
                parts[5] == f
  {
    if |parts| >= 6 {
      assert parts[..6] == [parts[0], parts[1], parts[2], parts[3], parts[4], parts[5]];
    }
  }

  /** A printed name parses back to what was printed exactly when no field has an underscore. */
  lemma {:induction false} RoundTrip(n: Label)
    ensures Parse(Print(n)) == Some(n) <==> forall f <- Fields(n) :: '_' !in f
  {
    LastDot(Join(Fields(n), '_'));
    SplitJoin(Fields(n), '_');
    Prefix6(n.timestamp, n.standard, n.mtNo, n.camera, n.index, n.defect, Split(Join(Fields(n), '_'), '_'));
  }

  lemma FieldsFree(n: Label)
    ensures (forall f <- Fields(n) :: '_' !in f) <==>
            '_' !in n.timestamp && '_' !in n.standard && '_' !in n.mtNo && '_' !in n.camera && '_' !in n.index &&
                '_' !in n.defect
  {
    var fs := Fields(n);
    assert fs[0] == n.timestamp && fs[1] == n.standard && fs[2] == n.mtNo && fs[3] == n.camera && fs[4] == n.index &&
        fs[5] == n.defect;
  }

  lemma JoinFrom(parts: seq<string>, i: nat, c: char)
    requires i + 1 < |parts|
    ensures Join(parts[i..], c) == parts[i] + [c] + Join(parts[i + 1..], c)
  {
    assert parts[i..][1..] == parts[i + 1..];
  }

  lemma Associate(a: string, b: string, c: string)
    ensures a + b + c == a + (b + c)
  {
  }

  lemma Front(p: string, a: string, e: string)
    ensures p + a + "_" + e == p + (a + ("_" + e))
  {
    Associate(p + a, "_", e);
    Associate(p, a, "_" + e);
  }

  lemma Back(a: string, z: string)
    ensures a + "_" + z + ".jpg" == a + ("_" + (z + ".jpg"))
  {
    Associate(a + "_", z, ".jpg");
    Associate(a, "_", z + ".jpg");
  }

  lemma Flat(date: string, standard: string, mtNo: string, camera: string, index: string)
    ensures date + "_" + standard + "_" + mtNo + "_" + (camera + "_" + index) + "_x.jpg"
         == date + "_" + (standard + "_" + (mtNo + "_" + (camera + "_" + (index + "_" + "x")))) + ".jpg"
  {
    var e := camera + "_" + index + "_x.jpg";
    Associate(date + "_" + standard + "_" + mtNo + "_", camera + "_" + index, "_x.jpg");
    Front(date + "_" + standard + "_", mtNo, e);
    Front(date + "_", standard, mtNo + ("_" + e));
    var z := camera + "_" + (index + "_" + "x");
    LastField(camera, index);
    Back(mtNo, z);
    Back(standard, mtNo + "_" + z);
    Associate(date + "_", standard + "_" + (mtNo + "_" + z), ".jpg");
  }

  lemma LastField(camera: string, index: string)
    ensures camera + "_" + (index + "_" + "x") + ".jpg" == camera + "_" + index + "_x.jpg"
  {
  }

  /** The copy's name is the printed name with the label x. */
  lemma DefectNameIsPrinted(date: string, standard: string, mtNo: string, camera: string, index: string)
    ensures DefectName(date, standard, mtNo, camera + "_" + index + ".jpg")
            == Print(Label(date, standard, mtNo, camera, index, "x"))
  {
    var row := camera + "_" + index + ".jpg";
    assert Stem(row) == camera + "_" + index;
    var fs := Fields(Label(date, standard, mtNo, camera, index, "x"));
    assert fs[0..] == fs && Join(fs[5..], '_') == "x";
    hide Join;
    JoinFrom(fs, 4, '_');
    JoinFrom(fs, 3, '_');
    JoinFrom(fs, 2, '_');
    JoinFrom(fs, 1, '_');
    JoinFrom(fs, 0, '_');
    Flat(date, standard, mtNo, camera, index);
  }

  // ----- Where the image is -----

  function Take8(date: string): string { if |date| < 8 then date else date[..8] }

  /** The name a scored image with a defect is renamed to: the row names it as {camera}_{index}.jpg. */
  function Renamed(row: string): string { Stem(row) + "_x.jpg" }

  /** Where the copy of a defect image is made from, relative to the storage root. */
  function CopyDir(date: string, standard: string, row: string): seq<string> {
    [Take8(date), date + "_" + standard, "camera_" + Split(Stem(row), '_')[0]]
  }

  function CopySource(date: string, standard: string, row: string): seq<string> {
    CopyDir(date, standard, row) + [Renamed(row)]
  }

  /** Where a label update looks for the image. */
  function LabelDir(n: Label): seq<string> {
    [Take8(n.timestamp), n.timestamp + "_" + n.standard, "camera_" + n.camera]
  }

  /** The pattern {camera}_{index}_*.jpg it looks with. */
  predicate Matches(n: Label, file: string) {
    var start := n.camera + "_" + n.index + "_";
    |start| + 4 <= |file| && file[..|start|] == start && file[|file| - 4..] == ".jpg"
  }

  predicate Finds(n: Label, dir: seq<string>, file: string) { LabelDir(n) == dir && Matches(n, file) }

  /** What it moves the image to. */
  function LabelTarget(n: Label): seq<string> {
    LabelDir(n) + [n.camera + "_" + n.index + "_" + n.defect + ".jpg"]
  }

  lemma MatchesOwn(n: Label, defect: string)
    ensures Matches(n, n.camera + "_" + n.index + "_" + defect + ".jpg")
  {
    var start := n.camera + "_" + n.index + "_";
    var file := start + defect + ".jpg";
    assert file[..|start|] == start && file[|file| - 4..] == ".jpg";
  }

  lemma TwoSeparators(a: string, b: string, s: string, a2: string, b2: string, t: string)
    requires '_' !in a && '_' !in b && '_' !in a2 && '_' !in b2
    requires a + "_" + b + "_" + s == a2 + "_" + b2 + "_" + t
    ensures a == a2 && b == b2
  {
    var x, y := b + "_" + s, b2 + "_" + t;
    assert a + "_" + b + "_" + s == a + "_" + x;
    assert a2 + "_" + b2 + "_" + t == a2 + "_" + y;
    FirstSeparator(a, a2, x, y, '_');
    FirstSeparator(b, b2, s, t, '_');
  }

  /** The pattern finds the image it names, under any label, and no other image. */
  lemma {:induction false} MatchesOnly(n: Label, camera: string, index: string, defect: string)
    requires '_' !in n.camera && '_' !in n.index && '_' !in camera && '_' !in index
    ensures Matches(n, camera + "_" + index + "_" + defect + ".jpg") <==> n.camera == camera && n.index == index
  {
    var file := camera + "_" + index + "_" + defect + ".jpg";
    var start := n.camera + "_" + n.index + "_";
    if Matches(n, file) {
      assert file == start + file[|start|..];
      assert file == camera + "_" + index + "_" + (defect + ".jpg");
      hide Matches;
      TwoSeparators(n.camera, n.index, file[|start|..], camera, index, defect + ".jpg");
    }
    if n.camera == camera && n.index == index {
      MatchesOwn(n, defect);
    }
  }

  /** Fields without the separator come back whole, before the parts of the last one. */
  lemma {:induction false} SplitLast(fields: seq<string>, last: string, c: char)
    requires forall f <- fields :: c !in f
    ensures Split(Join(fields + [last], c), c) == fields + Split(last, c)
  {
    if fields == [] {
      assert fields + [last] == [last];
    } else {
      SplitLast(fields[1..], last, c);
      assert (fields + [last])[1..] == fields[1..] + [last];
      FirstWhole(fields + [last], c);
      assert [fields[0]] + (fields[1..] + Split(last, c)) == fields + Split(last, c);
    }
  }

  /** What a name with any label parses to, when only the label may have an underscore. */
  lemma ParseLabel(n: Label)
    requires '_' !in n.timestamp && '_' !in n.standard && '_' !in n.mtNo && '_' !in n.camera && '_' !in n.index
    ensures Parse(Print(n)) == Some(n.(defect := Split(n.defect, '_')[0]))
  {
    var five := [n.timestamp, n.standard, n.mtNo, n.camera, n.index];
    LastDot(Join(Fields(n), '_'));
    assert Fields(n) == five + [n.defect];
    SplitLast(five, n.defect, '_');
  }

  /** A standard with an underscore comes back shorter, and so does the directory's name. */
  lemma StandardCut(n: Label)
    requires '_' !in n.timestamp && '_' in n.standard
    ensures var parsed := Parse(Print(n));
            parsed.Some? ==> |LabelDir(parsed.value)[1]| < |n.timestamp + "_" + n.standard|
  {
    var rest := Join(Fields(n)[2..], '_');
    LastDot(Join(Fields(n), '_'));
    FirstTwo(n.timestamp, n.standard, rest, '_');
    assert Join(Fields(n), '_') == n.timestamp + ['_'] + (n.standard + ['_'] + rest) by {
      assert Fields(n)[1..][1..] == Fields(n)[2..];
    }
  }

  lemma RowNames(camera: string, index: string)
    requires '_' !in camera
    ensures var row := camera + "_" + index + ".jpg";
            && Renamed(row) == camera + "_" + index + "_" + "x" + ".jpg"
            && Split(Stem(row), '_')[0] == camera
  {
    var row, image := camera + "_" + index + ".jpg", camera + "_" + index;
    assert row[..|row| - 4] == image;
    SplitFirst(camera, '_', index);
    assert camera + ['_'] + index == image;
    assert image + "_x.jpg" == camera + "_" + index + "_" + "x" + ".jpg";
  }

  lemma ParseSome(n: Label)
    ensures Parse(Print(n)).Some?
  {
    LastDot(Join(Fields(n), '_'));
    SixParts(Fields(n), '_');
  }

  lemma OwnPart(s: string, c: char)
    ensures Split(s, c)[0] == s <==> c !in s
  {
    if c !in s {
      OneField(s, c);
    } else {
      var k :| 0 <= k < |s| && s[k] == c;
      assert IndexOf(s, c) <= k;
    }
  }

  lemma SameFile(a: string, b: string)
    ensures a + ".jpg" == b + ".jpg" <==> a == b
  {
    assert (a + ".jpg")[..|a|] == a && (b + ".jpg")[..|b|] == b;
  }

  lemma SameLabel(start: string, a: string, b: string)
    ensures start + a + ".jpg" == start + b + ".jpg" <==> a == b
  {
    SameFile(start + a, start + b);
    assert (start + a)[|start|..] == a && (start + b)[|start|..] == b;
  }

  lemma SameEnd(dir: seq<string>, a: string, b: string)
    ensures dir + [a] == dir + [b] <==> a == b
  {
    assert (dir + [a])[|dir|] == a && (dir + [b])[|dir|] == b;
  }

  /** Where the image of label n is, and the target of its label. */
  function Target(dir: seq<string>, n: Label): seq<string> {
    dir + [n.camera + "_" + n.index + "_" + n.defect + ".jpg"]
  }

  lemma CleanStandard(n: Label)
    requires '_' !in n.timestamp && '_' !in n.mtNo && '_' !in n.camera && '_' !in n.index && '_' !in n.standard
    ensures var parsed := Parse(Print(n));
            && parsed.Some? && LabelDir(parsed.value) == LabelDir(n)
            && Matches(parsed.value, n.camera + "_" + n.index + "_" + "x" + ".jpg")
            && (LabelTarget(parsed.value) == Target(LabelDir(n), n) <==> '_' !in n.defect)
  {
    ParseLabel(n);
    var part := Split(n.defect, '_')[0];
    MatchesOwn(n.(defect := part), "x");
    OwnPart(n.defect, '_');
    var start := n.camera + "_" + n.index + "_";
    SameLabel(start, part, n.defect);
    SameEnd(LabelDir(n), start + part + ".jpg", start + n.defect + ".jpg");
  }

  /**
   A labelled name, whatever the label, leads a label update to the directory and the file of
   the image exactly when the standard has no underscore; and the image then gets that label
   exactly when the label has none either.
   */
  lemma {:induction false} NameFindsImage(date: string, standard: string, mtNo: string, camera: string, index: string,
                                          defect: string)
    requires '_' !in date && '_' !in mtNo && '_' !in camera && '_' !in index
    ensures var row := camera + "_" + index + ".jpg";
            var n := Label(date, standard, mtNo, camera, index, defect);
            var parsed := Parse(Print(n));
            && parsed.Some?
            && (Finds(parsed.value, CopyDir(date, standard, row), Renamed(row)) <==> '_' !in standard)
            && (LabelTarget(parsed.value) == Target(CopyDir(date, standard, row), n) <==>
                '_' !in standard && '_' !in defect)
  {
    var n := Label(date, standard, mtNo, camera, index, defect);
    RowNames(camera, index);
    if '_' in standard {
      ParseSome(n);
      StandardCut(n);
      assert LabelTarget(Parse(Print(n)).value)[1] == LabelDir(Parse(Print(n)).value)[1];
      assert Target(LabelDir(n), n)[1] == date + "_" + standard;
    } else {
      CleanStandard(n);
    }
  }

  lemma {:induction false} SixParts(fields: seq<string>, c: char)
    requires fields != []
    ensures |Split(Join(fields, c), c)| >= |fields|
  {
    if |fields| > 1 {
      SixParts(fields[1..], c);
      SplitCut(fields[0], c, Join(fields[1..], c));
    }
  }

  lemma {:induction false} SplitCut(a: string, c: char, b: string)
    ensures Split(a + [c] + b, c) == Split(a, c) + Split(b, c)
    decreases |a|
  {
    var p := IndexOf(a, c);
    if p == |a| {
      SplitFirst(a, c, b);
    } else {
      var a1, a2 := a[..p], a[p + 1..];
      assert a == a1 + [c] + a2;
      SplitFirst(a1, c, a2);
      Regroup(a, p, c, b);
      SplitFirst(a1, c, a2 + [c] + b);
      SplitCut(a2, c, b);
      Cons(a1, Split(a2, c), Split(b, c));
    }
  }

  lemma Cons(x: string, a: seq<string>, b: seq<string>)
    ensures [x] + (a + b) == [x] + a + b
  {
  }

  lemma Regroup(a: string, p: nat, c: char, b: string)
    requires p < |a| && a[p] == c
    ensures a + [c] + b == a[..p] + [c] + (a[p + 1..] + [c] + b)
  {
  }

  lemma SplitFirst(a: string, c: char, b: string)
    requires forall i :: 0 <= i < |a| ==> a[i] != c
    ensures Split(a + [c] + b, c) == [a] + Split(b, c)
  {
    var s := a + [c] + b;
    IndexOfFirst(a, c, b);
    assert s[..|a|] == a && s[|a| + 1..] == b;
  }

  /** With the separator in the second field, only a shorter second part comes back. */
  lemma FirstTwo(a: string, b: string, rest: string, c: char)
    requires c !in a && c in b
    ensures var parts := Split(a + [c] + (b + [c] + rest), c); |parts| >= 2 && parts[0] == a && |parts[1]| < |b|
  {
    var tail := b + [c] + rest;
    SplitFirst(a, c, tail);
    SplitCut(b, c, rest);
    assert |Split(b, c)[0]| < |b| by {
      assert IndexOf(b, c) < |b|;
    }
  }

  // ----- With the normalised standard -----

  /**
   For the standard of a job instruction: the name finds the image exactly when no section the
   short form keeps has an underscore or a slash.
   */
  lemma {:induction false} StandardFindsImage(date: string, raw: string, mtNo: string, camera: string, index: string,
                                              defect: string)
    requires '_' !in date && '_' !in mtNo && '_' !in camera && '_' !in index && '_' !in defect && NonBlank(raw)
    ensures var n := Label(date, Normal(raw), mtNo, camera, index, defect);
            Parse(Print(n)) == Some(n) <==>
              forall section <- Kept(Sections(RemoveSpace(raw))) :: '_' !in section && '/' !in section
  {
    var n := Label(date, Normal(raw), mtNo, camera, index, defect);
    RoundTrip(n);
    FieldsFree(n);
    UnderscoreFrom(raw);
  }

  lemma {:induction false} CharInSections(t: string, c: char)
    requires c in t && !IsX(c)
    ensures exists section <- Sections(t) :: c in section
    decreases |t|
  {
    var p := IndexX(t);
    if p < |t| {
      if c in t[..p] {
        assert t[..p] in Sections(t);
      } else {
        assert t == t[..p] + [t[p]] + t[p + 1..];
        CharInSections(t[p + 1..], c);
      }
    }
  }

  lemma FirstSection(t: string)
    requires t != "" && !IsX(t[0])
    ensures Sections(t) != [] && Sections(t)[0] != "" && Sections(t)[0][0] == t[0]
  {
    var p := IndexX(t);
    if p < |t| {
      assert Sections(t)[0] == t[..p];
    }
  }

  /** A slash in any standard that does not start with H breaks the names of its images. */
  lemma {:induction false} SlashBreaksNames(date: string, raw: string, mtNo: string, camera: string, index: string,
                                            defect: string)
    requires raw != "" && !IsSpace(raw[0]) && !IsX(raw[0]) && raw[0] != 'H' && raw[0] != 'h' && '/' in raw
    ensures var n := Label(date, Normal(raw), mtNo, camera, index, defect); Parse(Print(n)) != Some(n)
  {
    var t := RemoveSpace(raw);
    FirstStays(raw);
    FirstSection(t);
    RemoveSpaceKeeps(raw, '/');
    CharInSections(t, '/');
    UnderscoreFrom(raw);
    var n := Label(date, Normal(raw), mtNo, camera, index, defect);
    RoundTrip(n);
    FieldsFree(n);
  }

  /** One of the standards the line rolls. */
  lemma AngledStandardBreaksNames()
    ensures var n := Label("20251104093000", Normal("W 14 x 6-3/4 x 30"), "A1", "3", "17", "x");
        Parse(Print(n)) != Some(n)
  {
    var raw := "W 14 x 6-3/4 x 30";
    assert raw[10] == '/';
    SlashBreaksNames("20251104093000", raw, "A1", "3", "17", "x");
  }
}
