/**
 * The date text handling of the bot: the normaliser for a date typed by the user
 * (`extractManualExpirationDate`) and the scanner that picks a date out of the text an
 * OCR service recognised in a photo (the regular-expression part of `extractExpirationDate`).
 *
 * A regular expression built only from `\d{n}` and literal characters is described by a
 * template string: 'D' stands for one digit and every other character for itself.
 */
module DateText {
  import opened Wrappers

  /** A character matched by `\d` (an expression without the `u` flag matches ASCII digits only). */
  predicate IsDigit(c: char) {
    '0' <= c <= '9'
  }

  predicate AllDigits(s: string) {
    forall k | 0 <= k < |s| :: IsDigit(s[k])
  }

  /** The four alternatives of the scanning expression, in the order the expression lists them. */
  datatype Shape = DayMonthYearSlash | DayMonthYearDash | MonthYearSlash | MonthYearDash {
    /** Position of the alternative in the expression; a lower rank is tried first. */
    function Rank(): nat {
      match this
      case DayMonthYearSlash => 0
      case DayMonthYearDash => 1
      case MonthYearSlash => 2
      case MonthYearDash => 3
    }

    function Template(): string {
      match this
      case DayMonthYearSlash => "DD/DD/DDDD"
      case DayMonthYearDash => "DD-DD-DDDD"
      case MonthYearSlash => "DD/DDDD"
      case MonthYearDash => "DD-DDDD"
    }
  }

  /** The template matches the text starting at position i. */
  predicate FitsAt(t: string, i: nat, template: string) {
    i + |template| <= |t| &&
    forall k | 0 <= k < |template| ::
      if template[k] == 'D' then IsDigit(t[i + k]) else t[i + k] == template[k]
  }

  /** The template anchored with `^` and `$` matches the whole text. */
  predicate Whole(t: string, template: string) {
    |t| == |template| && FitsAt(t, 0, template)
  }

  /** Independent description of a full date: two digits, sep, two digits, sep, four digits. */
  ghost predicate DayMonthYear(t: string, sep: char) {
    |t| == 10 && AllDigits(t[0..2]) && t[2] == sep && AllDigits(t[3..5]) && t[5] == sep && AllDigits(t[6..10])
  }

  /** Independent description of a month-only date: two digits, sep, four digits. */
  ghost predicate MonthYear(t: string, sep: char) {
    |t| == 7 && AllDigits(t[0..2]) && t[2] == sep && AllDigits(t[3..7])
  }

  lemma {:induction false} WholeDayMonthYear(t: string, sep: char)
    requires sep == '/' || sep == '-'
    ensures Whole(t, if sep == '/' then DayMonthYearSlash.Template() else DayMonthYearDash.Template())
            <==> DayMonthYear(t, sep)
  {
    var tpl := if sep == '/' then DayMonthYearSlash.Template() else DayMonthYearDash.Template();
    assert tpl == ['D', 'D', sep, 'D', 'D', sep, 'D', 'D', 'D', 'D'];
    if DayMonthYear(t, sep) {
      forall k | 0 <= k < |tpl|
        ensures if tpl[k] == 'D' then IsDigit(t[k]) else t[k] == tpl[k]
      {
        if k < 2 { assert t[0..2][k] == t[k]; }
        else if 2 < k < 5 { assert t[3..5][k - 3] == t[k]; }
        else if 5 < k { assert t[6..10][k - 6] == t[k]; }
      }
    }
    if Whole(t, tpl) {
      forall k | 0 <= k < 2 ensures IsDigit(t[0..2][k]) { assert tpl[k] == 'D'; }
      forall k | 0 <= k < 2 ensures IsDigit(t[3..5][k]) { assert tpl[k + 3] == 'D'; }
      forall k | 0 <= k < 4 ensures IsDigit(t[6..10][k]) { assert tpl[k + 6] == 'D'; }
      assert tpl[2] == sep && tpl[5] == sep;
    }
  }

  lemma {:induction false} WholeMonthYear(t: string, sep: char)
    requires sep == '/' || sep == '-'
    ensures Whole(t, if sep == '/' then MonthYearSlash.Template() else MonthYearDash.Template())
            <==> MonthYear(t, sep)
  {
    var tpl := if sep == '/' then MonthYearSlash.Template() else MonthYearDash.Template();
    assert tpl == ['D', 'D', sep, 'D', 'D', 'D', 'D'];
    if MonthYear(t, sep) {
      forall k | 0 <= k < |tpl|
        ensures if tpl[k] == 'D' then IsDigit(t[k]) else t[k] == tpl[k]
      {
        if k < 2 { assert t[0..2][k] == t[k]; }
        else if 2 < k { assert t[3..7][k - 3] == t[k]; }
      }
    }
    if Whole(t, tpl) {
      forall k | 0 <= k < 2 ensures IsDigit(t[0..2][k]) { assert tpl[k] == 'D'; }
      forall k | 0 <= k < 4 ensures IsDigit(t[3..7][k]) { assert tpl[k + 3] == 'D'; }
      assert tpl[2] == sep;
    }
  }

  // ---------------------------------------------------------------------------
  // Manual entry: /^(?:\d{2}\/\d{2}\/\d{4}|\d{2}\/\d{4})$/
  // ---------------------------------------------------------------------------

  /** `extractManualExpirationDate`: the whole text must be DD/MM/YYYY or MM/YYYY; MM/YYYY is widened to day 01. */
  function ExtractManualExpirationDate(text: string): (r: Option<string>)
  {
    if Whole(text, DayMonthYearSlash.Template()) || Whole(text, MonthYearSlash.Template()) then
      var detected := text;
      if Whole(detected, MonthYearSlash.Template()) then Some("01/" + detected) else Some(detected)
    else
      None
  }

  /** The normaliser accepts exactly the two slash shapes, with nothing around them. */
  lemma ManualAcceptsExactlyTwoShapes(text: string)
    ensures ExtractManualExpirationDate(text).Some? <==> DayMonthYear(text, '/') || MonthYear(text, '/')
  {
    WholeDayMonthYear(text, '/');
    WholeMonthYear(text, '/');
  }

  /** A dash-separated date typed by the user is refused, in both shapes. */
  lemma ManualRefusesDashes(text: string)
    requires DayMonthYear(text, '-') || MonthYear(text, '-')
    ensures ExtractManualExpirationDate(text) == None
  {
    ManualAcceptsExactlyTwoShapes(text);
  }

  /** What the normaliser returns: MM/YYYY becomes "01/" + MM/YYYY, DD/MM/YYYY comes back unchanged. */
  lemma ManualResult(text: string)
    ensures MonthYear(text, '/') ==> ExtractManualExpirationDate(text) == Some("01/" + text)
    ensures DayMonthYear(text, '/') ==> ExtractManualExpirationDate(text) == Some(text)
  {
    WholeDayMonthYear(text, '/');
    WholeMonthYear(text, '/');
  }

  /** Every accepted date comes out as DD/MM/YYYY. */
  lemma ManualResultIsFullDate(text: string)
    ensures ExtractManualExpirationDate(text).Some? ==> DayMonthYear(ExtractManualExpirationDate(text).value, '/')
  {
    WholeDayMonthYear(text, '/');
    WholeMonthYear(text, '/');
    if MonthYear(text, '/') {
      var r := "01/" + text;
      assert r[0..2] == "01" && r[3..5] == text[0..2] && r[6..10] == text[3..7];
    }
  }

  /** Normalising a normalised date gives it back unchanged. */
  lemma ManualIdempotent(text: string)
    ensures ExtractManualExpirationDate(text).Some? ==>
      ExtractManualExpirationDate(ExtractManualExpirationDate(text).value) == ExtractManualExpirationDate(text)
  {
    if ExtractManualExpirationDate(text).Some? {
      var r := ExtractManualExpirationDate(text).value;
      ManualResultIsFullDate(text);
      ManualResult(r);
    }
  }

  // ---------------------------------------------------------------------------
  // OCR text: /(\d{2}\/\d{2}\/\d{4}|\d{2}-\d{2}-\d{4}|\d{2}\/\d{4}|\d{2}-\d{4})/g, first match
  // ---------------------------------------------------------------------------

  /** The alternative the expression takes at position i: the first one, in the expression's order, that matches there. */
  function MatchAt(t: string, i: nat): Option<Shape> {
    if FitsAt(t, i, DayMonthYearSlash.Template()) then Some(DayMonthYearSlash)
    else if FitsAt(t, i, DayMonthYearDash.Template()) then Some(DayMonthYearDash)
    else if FitsAt(t, i, MonthYearSlash.Template()) then Some(MonthYearSlash)
    else if FitsAt(t, i, MonthYearDash.Template()) then Some(MonthYearDash)
    else None
  }

  /** MatchAt takes an alternative that matches, none earlier in the expression's order does, and it finds one whenever one matches. */
  lemma MatchAtIsFirstAlternative(t: string, i: nat)
    ensures MatchAt(t, i).Some? ==> FitsAt(t, i, MatchAt(t, i).value.Template())
    ensures MatchAt(t, i).Some? ==> forall sh: Shape | sh.Rank() < MatchAt(t, i).value.Rank() :: !FitsAt(t, i, sh.Template())
    ensures MatchAt(t, i).None? ==> forall sh: Shape :: !FitsAt(t, i, sh.Template())
  {
  }

  /** The leftmost position at or after i where some alternative matches. */
  function FirstMatchFrom(t: string, i: nat): (r: Option<nat>)
    requires i <= |t|
    decreases |t| - i
    ensures r.Some? ==> i <= r.value <= |t| && MatchAt(t, r.value).Some?
    ensures r.Some? ==> forall j | i <= j < r.value :: MatchAt(t, j).None?
    ensures r.None? ==> forall j | i <= j <= |t| :: MatchAt(t, j).None?
  {
    if MatchAt(t, i).Some? then Some(i)
    else if i == |t| then None
    else FirstMatchFrom(t, i + 1)
  }

  /** `String.prototype.replace` with a one-character string pattern: only the first occurrence is replaced. */
  function ReplaceFirst(s: string, from: char, to: char): (r: string)
    ensures |r| == |s|
    ensures forall k | 0 <= k < |s| :: r[k] == if s[k] == from && from !in s[..k] then to else s[k]
  {
    if s == [] then []
    else if s[0] == from then [to] + s[1..]
    else
      var rest := ReplaceFirst(s[1..], from, to);
      assert forall k | 1 <= k < |s| :: (from in s[..k] <==> from in s[1..][..k - 1]) by {
        forall k | 1 <= k < |s| ensures s[..k] == [s[0]] + s[1..][..k - 1] { }
      }
      [s[0]] + rest
  }

  /** The month-only test applied to the detected date: /^\d{2}\/\d{4}$|^\d{2}-\d{4}$/. */
  predicate IsMonthOnly(detected: string) {
    Whole(detected, MonthYearSlash.Template()) || Whole(detected, MonthYearDash.Template())
  }

  /** The adjustment applied to the detected date: a month-only date gets day 01 and its dash becomes a slash. */
  function Widen(detected: string): string {
    if IsMonthOnly(detected) then "01/" + ReplaceFirst(detected, '-', '/') else detected
  }

  /** The date-text part of `extractExpirationDate`: the first match, adjusted by Widen. */
  function ScanExpirationDate(text: string): (r: Option<string>)
  {
    match FirstMatchFrom(text, 0)
    case None => None
    case Some(p) =>
      MatchAtIsFirstAlternative(text, p);
      Some(Widen(text[p .. p + |MatchAt(text, p).value.Template()|]))
  }

  /** No alternative matches at any position of the text. */
  ghost predicate NoMatchAnywhere(t: string) {
    forall p: nat, sh: Shape | p <= |t| :: !FitsAt(t, p, sh.Template())
  }

  /** Alternative sh matches at p, no alternative matches further left, and no earlier alternative matches at p. */
  ghost predicate IsLeftmostMatch(t: string, p: nat, sh: Shape) {
    && FitsAt(t, p, sh.Template())
    && (forall q: nat, other: Shape | q < p :: !FitsAt(t, q, other.Template()))
    && (forall other: Shape | other.Rank() < sh.Rank() :: !FitsAt(t, p, other.Template()))
  }

  /** What the scanner makes of the leftmost match, written out per alternative. */
  ghost function Expected(t: string, p: nat, sh: Shape): string
    requires FitsAt(t, p, sh.Template())
  {
    match sh
    case DayMonthYearSlash => t[p .. p + 10]
    case DayMonthYearDash => t[p .. p + 10]
    case MonthYearSlash => "01/" + t[p .. p + 2] + "/" + t[p + 3 .. p + 7]
    case MonthYearDash => "01/" + t[p .. p + 2] + "/" + t[p + 3 .. p + 7]
  }

  /** With no match anywhere the scanner finds nothing, and only then. */
  lemma ScanNoneIffNoMatch(text: string)
    ensures ScanExpirationDate(text).None? <==> NoMatchAnywhere(text)
  {
    var f := FirstMatchFrom(text, 0);
    if f.Some? {
      var p := f.value;
      MatchAtIsFirstAlternative(text, p);
      assert FitsAt(text, p, MatchAt(text, p).value.Template());
    } else {
      forall p: nat, sh: Shape | p <= |text| ensures !FitsAt(text, p, sh.Template()) {
        MatchAtIsFirstAlternative(text, p);
      }
    }
  }

  lemma MatchAtOfLeftmost(t: string, p: nat, sh: Shape)
    requires IsLeftmostMatch(t, p, sh)
    ensures MatchAt(t, p) == Some(sh)
  {
    MatchAtIsFirstAlternative(t, p);
  }

  /** The recursive search stops exactly at the leftmost match. */
  lemma FirstMatchIsLeftmost(t: string, p: nat, sh: Shape)
    requires IsLeftmostMatch(t, p, sh)
    ensures FirstMatchFrom(t, 0) == Some(p) && MatchAt(t, p) == Some(sh)
  {
    MatchAtOfLeftmost(t, p, sh);
  }

  /** A leftmost match exists whenever the scanner finds something. */
  lemma ScanHasLeftmostMatch(text: string)
    requires ScanExpirationDate(text).Some?
    ensures exists p: nat, sh: Shape :: p <= |text| && IsLeftmostMatch(text, p, sh)
  {
    var p := FirstMatchFrom(text, 0).value;
    var sh := MatchAt(text, p).value;
    MatchAtIsFirstAlternative(text, p);
    forall q: nat, other: Shape | q < p ensures !FitsAt(text, q, other.Template()) {
      MatchAtIsFirstAlternative(text, q);
    }
    assert IsLeftmostMatch(text, p, sh);
  }

  lemma FitsSlice(t: string, p: nat, sh: Shape)
    requires FitsAt(t, p, sh.Template())
    ensures Whole(t[p .. p + |sh.Template()|], sh.Template())
  {
    var d := t[p .. p + |sh.Template()|];
    assert forall k | 0 <= k < |d| :: d[k] == t[p + k];
  }

  lemma WidenMonthOnly(d: string, sh: Shape)
    requires sh == MonthYearSlash || sh == MonthYearDash
    requires Whole(d, sh.Template())
    ensures Widen(d) == "01/" + d[0..2] + "/" + d[3..7]
  {
    var rep := ReplaceFirst(d, '-', '/');
    var tpl := sh.Template();
    assert tpl[0] == 'D' && tpl[1] == 'D' && tpl[2] != 'D';
    assert IsDigit(d[0]) && IsDigit(d[1]);
    assert '-' !in d[..2];
    assert rep[0..2] == d[0..2];
    assert rep[2] == '/';
    forall k | 3 <= k < 7 ensures rep[k] == d[k] {
      assert tpl[k] == 'D';
    }
    assert rep[3..7] == d[3..7];
    assert rep == rep[0..2] + [rep[2]] + rep[3..7];
  }

  lemma WidenFullDate(d: string, sh: Shape)
    requires sh == DayMonthYearSlash || sh == DayMonthYearDash
    requires Whole(d, sh.Template())
    ensures Widen(d) == d
  {
  }

  /**
   * The scanner's result derives from the leftmost match: a full date is returned exactly as
   * scanned (dashes included) and a month-only date becomes 01/MM/YYYY with its dash replaced.
   */
  lemma ScanUsesLeftmostMatch(text: string, p: nat, sh: Shape)
    requires IsLeftmostMatch(text, p, sh)
    ensures ScanExpirationDate(text) == Some(Expected(text, p, sh))
  {
    FirstMatchIsLeftmost(text, p, sh);
    WidenIsExpected(text, p, sh);
  }

  /** Widen applied to the text an alternative matches gives what Expected writes out. */
  lemma WidenIsExpected(t: string, p: nat, sh: Shape)
    requires FitsAt(t, p, sh.Template())
    ensures Widen(t[p .. p + |sh.Template()|]) == Expected(t, p, sh)
  {
    var d := t[p .. p + |sh.Template()|];
    FitsSlice(t, p, sh);
    if sh == MonthYearSlash || sh == MonthYearDash {
      WidenMonthOnly(d, sh);
      assert d[0..2] == t[p .. p + 2] && d[3..7] == t[p + 3 .. p + 7];
    } else {
      WidenFullDate(d, sh);
    }
  }

  lemma ExpectedShape(t: string, p: nat, sh: Shape)
    requires FitsAt(t, p, sh.Template())
    ensures DayMonthYear(Expected(t, p, sh), '/') || DayMonthYear(Expected(t, p, sh), '-')
  {
    FitsSlice(t, p, sh);
    var d := t[p .. p + |sh.Template()|];
    if sh == DayMonthYearSlash {
      WholeDayMonthYear(d, '/');
    } else if sh == DayMonthYearDash {
      WholeDayMonthYear(d, '-');
    } else {
      var sep := if sh == MonthYearSlash then '/' else '-';
      WholeMonthYear(d, sep);
      var r := Expected(t, p, sh);
      assert d[0..2] == t[p .. p + 2] && d[3..7] == t[p + 3 .. p + 7];
      assert r == "01/" + d[0..2] + "/" + d[3..7];
      assert r[0..2] == "01" && r[3..5] == d[0..2] && r[6..10] == d[3..7];
    }
  }

  /** Every date the scanner returns is DD/MM/YYYY or, as scanned, DD-MM-YYYY. */
  lemma ScanResultShape(text: string)
    ensures ScanExpirationDate(text).Some? ==>
      DayMonthYear(ScanExpirationDate(text).value, '/') || DayMonthYear(ScanExpirationDate(text).value, '-')
  {
    if ScanExpirationDate(text).Some? {
      ScanHasLeftmostMatch(text);
      var p: nat, sh: Shape :| p <= |text| && IsLeftmostMatch(text, p, sh);
      ScanUsesLeftmostMatch(text, p, sh);
      ExpectedShape(text, p, sh);
    }
  }

  /** On a date the user could type, the OCR scanner and the manual normaliser agree. */
  lemma ScanAgreesWithManual(text: string)
    requires ExtractManualExpirationDate(text).Some?
    ensures ScanExpirationDate(text) == ExtractManualExpirationDate(text)
  {
    WholeDayMonthYear(text, '/');
    WholeMonthYear(text, '/');
    if Whole(text, DayMonthYearSlash.Template()) {
      assert IsLeftmostMatch(text, 0, DayMonthYearSlash);
      ScanUsesLeftmostMatch(text, 0, DayMonthYearSlash);
      assert text[0..10] == text;
    } else {
      assert Whole(text, MonthYearSlash.Template());
      assert |text| == 7 && MonthYearSlash.Template()[2] == '/';
      assert IsLeftmostMatch(text, 0, MonthYearSlash);
      ScanUsesLeftmostMatch(text, 0, MonthYearSlash);
      assert ScanExpirationDate(text) == Some("01/" + text[0..2] + "/" + text[3..7]);
      assert ExtractManualExpirationDate(text) == Some("01/" + text);
      assert text[2] == '/';
      assert text == text[0..2] + "/" + text[3..7];
      assert "01/" + text == "01/" + text[0..2] + "/" + text[3..7];
    }
  }
}
