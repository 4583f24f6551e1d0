/**
 * Service-name normalisation (src/lib/utils.ts): free-text service names are
 * trimmed, and the legacy spellings of the AI workshop collapse to one label.
 */
module ServiceName {
  import opened Wrappers
  import opened Text

  /** The label the legacy workshop spellings are mapped to. */
  const Canonical: string := "Talleres IA"

  /** The legacy spellings, as they read once trimmed, lower-cased and with white-space runs collapsed. */
  const LegacyVariants: seq<string> := [
    "taller ia - administrativos",
    "taller ia - abogados",
    "taller ia administrativos",
    "taller ia abogados"
  ]

  /** An absent name, or one made only of white space. */
  predicate Blank(s: Option<string>)
  {
    s.None? || AllSpace(s.value)
  }

  /** The form a name is compared in: trimmed, lower-cased, each white-space run one space. */
  function MatchKey(s: string): (k: string)
    ensures |k| <= |s|
  {
    CollapseSpace(Lower(Trim(s)))
  }

  /** `normalizeServicio`: "" for a blank name, the canonical label for a legacy
      spelling, otherwise the name trimmed (case and inner spacing kept). */
  function NormalizeServicio(s: Option<string>): (r: string)
    ensures Trimmed(r)
    ensures r == "" <==> Blank(s)
  {
    if s.None? then ""
    else
      var t := Trim(s.value);
      TrimEmptyIffBlank(s.value);
      if t == "" then ""
      else if MatchKey(s.value) in LegacyVariants then CanonicalTrimmed(); Canonical
      else t
  }

  lemma CanonicalTrimmed()
    ensures Trimmed(Canonical) && Canonical != ""
  {
  }

  /** A legacy spelling, in any casing and with any white space around or inside
      its words, becomes the canonical label. */
  lemma {:induction false} LegacyBecomesCanonical(s: string)
    requires MatchKey(s) in LegacyVariants
    ensures NormalizeServicio(Some(s)) == Canonical
  {
    if Trim(s) == "" {
      EmptyKey(s);
    }
  }

  /** A name that trims to nothing has the empty key, which is no legacy spelling. */
  lemma EmptyKey(s: string)
    requires Trim(s) == ""
    ensures MatchKey(s) == "" && MatchKey(s) !in LegacyVariants
  {
    assert Lower("") == "";
  }

  /** Any other non-blank name comes back trimmed, with its casing and inner spacing kept. */
  lemma {:induction false} OtherNamesTrimmed(s: string)
    requires !AllSpace(s) && MatchKey(s) !in LegacyVariants
    ensures NormalizeServicio(Some(s)) == Trim(s)
  {
    TrimEmptyIffBlank(s);
  }

  lemma CanonicalLower()
    ensures Lower(Canonical) == "talleres ia"
  {
  }

  lemma CanonicalCollapsed()
    ensures CollapseSpace("talleres ia") == "talleres ia"
  {
    var k := "talleres ia";
    assert forall i :: 0 <= i < |k| && i != 8 ==> !IsSpace(k[i]);
    CollapseFixed(k);
  }

  /** The canonical label is trimmed and is not itself a legacy spelling. */
  lemma CanonicalKey()
    ensures Trim(Canonical) == Canonical
    ensures MatchKey(Canonical) !in LegacyVariants
  {
    TrimStartOfTrimmed(Canonical);
    TrimEndOfTrimmed(Canonical);
    CanonicalLower();
    CanonicalCollapsed();
    assert MatchKey(Canonical) == "talleres ia";
  }

  lemma IdemEmpty()
    ensures NormalizeServicio(Some("")) == ""
  {
    assert Trim("") == "";
  }

  lemma IdemCanonical()
    ensures NormalizeServicio(Some(Canonical)) == Canonical
  {
    CanonicalKey();
    assert !AllSpace(Canonical) by { assert !IsSpace(Canonical[0]); }
    OtherNamesTrimmed(Canonical);
  }

  lemma IdemOther(v: string)
    requires !AllSpace(v) && MatchKey(v) !in LegacyVariants
    ensures NormalizeServicio(Some(Trim(v))) == Trim(v)
  {
    var r := Trim(v);
    MatchKeyOfTrim(v);
    TrimEmptyIffBlank(v);
    assert !AllSpace(r) by { assert !IsSpace(r[0]); }
    OtherNamesTrimmed(r);
  }

  /** Trimming first does not change the key. */
  lemma MatchKeyOfTrim(s: string)
    ensures MatchKey(Trim(s)) == MatchKey(s)
  {
    TrimIdempotent(s);
  }

  /** Normalising twice is the same as normalising once. */
  lemma {:induction false} NormalizeIdempotent(s: Option<string>)
    ensures NormalizeServicio(Some(NormalizeServicio(s))) == NormalizeServicio(s)
  {
    var r := NormalizeServicio(s);
    if r == "" {
      IdemEmpty();
    } else if r == Canonical {
      IdemCanonical();
    } else {
      IdemOther(s.value);
    }
  }

  lemma ExampleTrimStart()
    ensures TrimStart(" TALLER IA\t-  Abogados ") == "TALLER IA\t-  Abogados "
  {
    var s := " TALLER IA\t-  Abogados ";
    assert IsSpace(s[0]) && s[1..] == "TALLER IA\t-  Abogados ";
    TrimStartOfTrimmed2(s[1..]);
  }

  lemma ExampleTrimEnd()
    ensures TrimEnd("TALLER IA\t-  Abogados ") == "TALLER IA\t-  Abogados"
  {
    var s := "TALLER IA\t-  Abogados ";
    assert IsSpace(s[|s| - 1]) && s[..|s| - 1] == "TALLER IA\t-  Abogados";
    TrimEndOfTrimmed(s[..|s| - 1]);
  }

  lemma ExampleTrim()
    ensures Trim(" TALLER IA\t-  Abogados ") == "TALLER IA\t-  Abogados"
  {
    ExampleTrimStart();
    ExampleTrimEnd();
  }

  lemma ExampleLower()
    ensures Lower("TALLER IA\t-  Abogados") == "taller" + " ia" + "\t-" + "  abogados"
  {
  }

  /** A single white-space character before a word becomes one space. */
  lemma CollapseSpaceWord(c: char, w: string)
    requires IsSpace(c) && NoSpace(w)
    ensures CollapseRun([c] + w, false) == " " + w
  {
    assert ([c] + w)[1..] == w;
    CollapseRunNoSpace(w, true);
  }

  lemma ExamplePieces()
    ensures CollapseRun("taller", false) == "taller"
    ensures CollapseRun(" ia", false) == " ia"
    ensures CollapseRun("\t-", false) == " -"
  {
    CollapseRunNoSpace("taller", false);
    ExampleSecondPiece();
    ExampleThirdPiece();
  }

  lemma ExampleSecondPiece()
    ensures CollapseRun(" ia", false) == " ia"
  {
    CollapseSpaceWord(' ', "ia");
    assert " ia" == [' '] + "ia";
  }

  lemma ExampleThirdPiece()
    ensures CollapseRun("\t-", false) == " -"
  {
    CollapseSpaceWord('\t', "-");
    assert "\t-" == ['\t'] + "-";
  }

  lemma ExampleLastPiece()
    ensures CollapseRun("  abogados", false) == " abogados"
  {
    CollapseSpaceWord(' ', "abogados");
    assert " abogados" == [' '] + "abogados";
    assert "  abogados"[1..] == " abogados";
  }

  lemma ExampleCollapse()
    ensures CollapseSpace("taller" + " ia" + "\t-" + "  abogados") == "taller ia - abogados"
  {
    var a, b, c, d := "taller", " ia", "\t-", "  abogados";
    assert a + b + c + d == a + (b + (c + d));
    CollapseRunConcat(a, b + (c + d), false);
    CollapseRunConcat(b, c + d, false);
    CollapseRunConcat(c, d, false);
    ExamplePieces();
    ExampleLastPiece();
    assert !IsSpace(a[|a| - 1]) && !IsSpace(b[|b| - 1]) && !IsSpace(c[|c| - 1]);
    assert CollapseRun(a + (b + (c + d)), false) == "taller" + (" ia" + (" -" + " abogados"));
    ExampleJoin();
  }

  lemma ExampleJoin()
    ensures "taller" + (" ia" + (" -" + " abogados")) == "taller ia - abogados"
  {
  }

  /** Example: upper case, a tab and doubled spaces still match a legacy spelling. */
  lemma ExampleLegacySpelling()
    ensures NormalizeServicio(Some(" TALLER IA\t-  Abogados ")) == Canonical
  {
    var s := " TALLER IA\t-  Abogados ";
    ExampleTrim();
    ExampleLower();
    ExampleCollapse();
    assert MatchKey(s) == "taller ia - abogados";
    LegacyBecomesCanonical(s);
  }
}
