/** ADR file names and the scan for the highest number in a corpus. */
module Adr {
  import opened Text

  datatype Tree = Tree(name: string, idPrefix: string, filePrefix: string)

  const CORE := Tree("core", "CORE", "")

  const HOST := Tree("host", "ADR", "ADR-")

  predicate IsTree(t: Tree) {
    t == CORE || t == HOST
  }

  /** "%04d" */
  function Pad4(n: nat): string {
    var d := Decimal(n);
    if |d| == 1 then "000" + d else if |d| == 2 then "00" + d else if |d| == 3 then "0" + d else d
  }

  /** Tree.Filename */
  function FileName(t: Tree, n: nat, slug: string): string {
    t.filePrefix + Pad4(n) + "-" + slug + ".md"
  }

  predicate AllDigits(s: string) {
    forall i :: 0 <= i < |s| ==> IsDigit(s[i])
  }

  /** The part of numberPattern after the optional prefix: four digits and a dash. */
  function FourDigits(s: string): Option<nat> {
    if |s| >= 5 && AllDigits(s[..4]) && s[4] == '-' then Some(Value(s[..4])) else None
  }

  /** ParseNumber */
  function ParseNumber(filename: string): Option<nat> {
    if "ADR-" <= filename then FourDigits(filename[4..]) else FourDigits(filename)
  }

  // ----- numbers survive the file name

  lemma {:induction false} DecimalLength(n: nat)
    ensures n < 10 <==> |Decimal(n)| == 1
    ensures n < 100 <==> |Decimal(n)| <= 2
    ensures n < 1000 <==> |Decimal(n)| <= 3
    ensures n < 10000 <==> |Decimal(n)| <= 4
  {
    if n >= 10 {
      DecimalLengthUpTo(n / 10);
    }
  }

  lemma {:induction false} DecimalLengthUpTo(n: nat)
    ensures n < 10 <==> |Decimal(n)| == 1
    ensures n < 100 <==> |Decimal(n)| <= 2
    ensures n < 1000 <==> |Decimal(n)| <= 3
  {
    if n >= 10 {
      var m := n / 10;
      if m >= 10 {
        assert |Decimal(n)| == |Decimal(m / 10)| + 2;
      }
    }
  }

  lemma {:induction false} LeadingZero(d: string)
    requires AllDigits(d)
    ensures AllDigits("0" + d) && Value("0" + d) == Value(d)
  {
    if d != "" {
      LeadingZero(d[..|d| - 1]);
      assert ("0" + d)[..|d|] == "0" + d[..|d| - 1];
    }
  }

  lemma PaddedValue(n: nat)
    ensures AllDigits(Pad4(n)) && Value(Pad4(n)) == n
    ensures |Pad4(n)| == 4 <==> n <= 9999
    ensures |Pad4(n)| >= 4
  {
    var d := Decimal(n);
    DecimalLength(n);
    ValueOfDecimal(n);
    hide Decimal, Value;
    LeadingZero(d);
    LeadingZero("0" + d);
    LeadingZero("0" + ("0" + d));
    assert "00" + d == "0" + ("0" + d) && "000" + d == "0" + ("0" + ("0" + d));
  }

  /** A number is read back off its file name exactly while it has four digits. */
  lemma NumberSurvivesFileName(t: Tree, n: nat, slug: string)
    requires IsTree(t)
    ensures ParseNumber(FileName(t, n, slug)) == if n <= 9999 then Some(n) else None
  {
    PaddedValue(n);
    hide Pad4, Decimal, Value;
    var p := Pad4(n);
    var rest := p + "-" + slug + ".md";
    assert FileName(t, n, slug) == t.filePrefix + rest;
    assert (t.filePrefix + rest)[|t.filePrefix|..] == rest;
    assert rest[0] == p[0] && IsDigit(p[0]);
    assert rest[..4] == p[..4];
    if n <= 9999 {
      assert p[..4] == p;
    } else {
      assert rest[4] == p[4];
    }
    if t == CORE {
      assert !("ADR-" <= rest) by { assert "ADR-"[0] == 'A'; }
      assert "" + rest == rest;
    }
  }

  /** The names of the two trees: four digits at least, the slug, and for the host's a prefix in front. */
  lemma NamesOfTrees(n: nat, slug: string)
    ensures FileName(HOST, n, slug) == "ADR-" + FileName(CORE, n, slug)
    ensures exists digits :: AllDigits(digits) && Value(digits) == n && |digits| >= 4 && (n <= 9999 ==> |digits| == 4)
              && FileName(CORE, n, slug) == digits + "-" + slug + ".md"
  {
    PaddedValue(n);
    hide Pad4, Value, AllDigits;
    assert "" + Pad4(n) == Pad4(n);
    assert "ADR-" + (Pad4(n) + "-" + slug + ".md") == "ADR-" + Pad4(n) + "-" + slug + ".md";
  }

  /** Only four digits are ever read. */
  lemma ParsedIsBounded(filename: string)
    ensures ParseNumber(filename).Some? ==> ParseNumber(filename).value <= 9999
  {
    var s := if "ADR-" <= filename then filename[4..] else filename;
    if FourDigits(s).Some? {
      var d := s[..4];
      assert d[..3][..2] == d[..2] && d[..2][..1] == d[..1] && d[..1][..0] == "";
      assert Value(d) == 10 * Value(d[..3]) + DigitValue(d[3]);
      assert Value(d[..3]) == 10 * Value(d[..2]) + DigitValue(d[2]);
      assert Value(d[..2]) == 10 * Value(d[..1]) + DigitValue(d[1]);
      assert Value(d[..1]) == 10 * Value("") + DigitValue(d[0]);
    }
  }

  // ----- the scan

  datatype DirEntry = DirEntry(name: string, isDir: bool)

  /** The highest number among some file names, or 0. */
  ghost predicate IsHighest(names: set<string>, m: nat) {
    && (forall f :: f in names && ParseNumber(f).Some? ==> ParseNumber(f).value <= m)
    && (m == 0 || exists f :: f in names && ParseNumber(f) == Some(m))
  }

  function FileNames(entries: seq<DirEntry>): set<string> {
    set e | e in entries && !e.isDir :: e.name
  }

  /** Tree.Max: directories and names that do not parse are skipped. */
  method Max(entries: seq<DirEntry>) returns (maxSeen: nat)
    ensures IsHighest(FileNames(entries), maxSeen)
  {
    hide ParseNumber;
    maxSeen := 0;
    for i := 0 to |entries|
      invariant IsHighest(FileNames(entries[..i]), maxSeen)
    {
      assert entries[..i + 1] == entries[..i] + [entries[i]];
      ghost var before := FileNames(entries[..i]);
      assert FileNames(entries[..i + 1]) == if entries[i].isDir then before else before + {entries[i].name};
      if entries[i].isDir {
        continue;
      }
      var n := ParseNumber(entries[i].name);
      if n.Some? && n.value > maxSeen {
        maxSeen := n.value;
      }
    }
    assert entries[..|entries|] == entries;
  }

  /** There is one highest number, and it has at most four digits. */
  lemma HighestIsUnique(names: set<string>, m: nat, n: nat)
    requires IsHighest(names, m) && IsHighest(names, n)
    ensures m == n <= 9999
  {
    forall f | f in names ensures ParseNumber(f).Some? ==> ParseNumber(f).value <= 9999 { ParsedIsBounded(f); }
    hide ParseNumber;
  }
}
