/**
 * Classification of one stripped scanner line and extraction of the three
 * fields the intake uses (parteye.py:96-117, 235-246).
 */
module ScanLine {
  import opened Wrappers
  import opened Text

  /** The part of a line that is read: `read_in` strips the raw line (parteye.py:93). */
  function ReadIn(raw: string): string {
    Strip(raw)
  }

  // ---------------------------------------------------------------------
  // The pattern ^QTY:\d+ PN:.*tme\.eu.* under re.match

  predicate IsDigit(c: char) {
    '0' <= c <= '9'
  }

  predicate AllDigits(s: string) {
    forall k | 0 <= k < |s| :: IsDigit(s[k])
  }

  /** Length of the longest run of digits at the start of `s`: what a greedy `\d+` takes. */
  function DigitRun(s: string): (n: nat)
    ensures n <= |s|
    ensures AllDigits(s[..n])
    ensures n == |s| || !IsDigit(s[n])
  {
    if |s| > 0 && IsDigit(s[0]) then
      var m := DigitRun(s[1..]);
      assert s[..m + 1] == [s[0]] + s[1..][..m];
      m + 1
    else 0
  }

  /** `.*tme\.eu` tried from the start of `s`: `.` never crosses a line feed. */
  function MarkerAhead(s: string): bool
    decreases |s|
  {
    if |s| < 6 then false
    else if s[..6] == "tme.eu" then true
    else if s[0] == '\n' then false
    else MarkerAhead(s[1..])
  }

  /** The matcher: `re.compile(r'^QTY:\d+ PN:.*tme\.eu.*').match(line) is not None`. */
  predicate MatchesTme(line: string) {
    && |line| >= 4 && line[..4] == "QTY:"
    && var n := DigitRun(line[4..]);
    && n > 0 && |line| >= 8 + n && line[4 + n..8 + n] == " PN:"
    && MarkerAhead(line[8 + n..])
  }

  /** The line opens with `QTY:`, `n` digits and ` PN:`. */
  ghost predicate QtyPnPrefix(line: string, n: nat) {
    && 0 < n && 8 + n <= |line|
    && line[..4] == "QTY:" && AllDigits(line[4..4 + n]) && line[4 + n..8 + n] == " PN:"
  }

  /** `tme.eu` starts at `j` of `s`, with no line feed before it. */
  ghost predicate MarkerAt(s: string, j: nat) {
    j + 6 <= |s| && s[j..j + 6] == "tme.eu" && '\n' !in s[..j]
  }

  ghost predicate MarkerSomewhere(s: string) {
    exists j: nat :: MarkerAt(s, j)
  }

  /** What the pattern means, written without a matcher. */
  ghost predicate TmeShape(line: string) {
    exists n: nat :: QtyPnPrefix(line, n) && MarkerSomewhere(line[8 + n..])
  }

  lemma {:induction false} MarkerAheadCorrect(s: string)
    ensures MarkerAhead(s) <==> MarkerSomewhere(s)
    decreases |s|
  {
    if |s| < 6 {
    } else if s[..6] == "tme.eu" {
      assert s[..0] == [];
      assert MarkerAt(s, 0);
    } else if s[0] == '\n' {
      forall j: nat ensures !MarkerAt(s, j) {
        if 0 < j <= |s| {
          assert s[..j][0] == '\n';
        }
      }
    } else {
      MarkerAheadCorrect(s[1..]);
      forall j: nat | MarkerAt(s, j) ensures MarkerAt(s[1..], j - 1) {
        assert s[1..][j - 1..j + 5] == s[j..j + 6];
        assert s[1..][..j - 1] == s[..j][1..];
      }
      forall j: nat | MarkerAt(s[1..], j) ensures MarkerAt(s, j + 1) {
        assert s[j + 1..j + 7] == s[1..][j..j + 6];
        assert s[..j + 1] == [s[0]] + s[1..][..j];
      }
    }
  }

  /** The digit run before ` PN:` is the greedy one: no shorter run fits. */
  lemma PrefixIsGreedy(line: string, n: nat)
    requires QtyPnPrefix(line, n)
    ensures n == DigitRun(line[4..])
  {
    var m := DigitRun(line[4..]);
    assert forall k | 0 <= k < n :: line[4..][k] == line[4..4 + n][k];
    assert line[4..][n] == line[4 + n..8 + n][0] == ' ';
    assert forall k | 0 <= k < m :: line[4..][..m][k] == line[4..][k];
  }

  /** The matcher accepts a line exactly when the line has the shape of the pattern. */
  lemma MatchesTmeCorrect(line: string)
    ensures MatchesTme(line) <==> TmeShape(line)
  {
    if MatchesTme(line) {
      var n := DigitRun(line[4..]);
      assert line[4..][..n] == line[4..4 + n];
      MarkerAheadCorrect(line[8 + n..]);
      assert QtyPnPrefix(line, n);
    }
    if TmeShape(line) {
      var n: nat :| QtyPnPrefix(line, n) && MarkerSomewhere(line[8 + n..]);
      PrefixIsGreedy(line, n);
      MarkerAheadCorrect(line[8 + n..]);
    }
  }

  // ---------------------------------------------------------------------
  // Classification in the intake loop

  datatype LineKind = TmeScan | EndOfInput | Unrecognized

  /**
   * The branch the intake loop takes on a stripped line (parteye.py:238-246):
   * a match is processed, the empty line ends the run cleanly, anything else
   * ends it with a failure.
   */
  function Classify(line: string): (k: LineKind)
    ensures k == TmeScan <==> TmeShape(line)
    ensures k == EndOfInput <==> line == []
    ensures k == Unrecognized <==> line != [] && !TmeShape(line)
  {
    MatchesTmeCorrect(line);
    if MatchesTme(line) then TmeScan
    else if line == [] then EndOfInput
    else Unrecognized
  }

  // ---------------------------------------------------------------------
  // Field extraction: field.split(":")[1]

  /**
   * `field.split(":")[1]`: the text between the first and the second colon
   * (or the end); `None` where Python raises IndexError.
   */
  function FieldValue(field: string): (r: Option<string>)
    ensures r == None <==> ':' !in field
    ensures r.Some? ==> ':' !in r.value
  {
    var parts := Split(field, ':');
    assert ':' !in field ==> |parts| == 1 by {
      if ':' !in field {
        SplitPrefix(field, [], ':');
        assert field + [] == field;
      }
    }
    if |parts| < 2 then None else Some(parts[1])
  }

  /** The value of a field is what stands between its first and its second colon. */
  lemma FieldValueBetweenColons(a: string, v: string, tail: string)
    requires ':' !in a && ':' !in v
    requires tail == [] || tail[0] == ':'
    ensures FieldValue(a + [':'] + v + tail) == Some(v)
  {
    assert a + [':'] + v + tail == a + [':'] + (v + tail);
    SplitAtSeparator(a, v + tail, ':');
    SplitPrefix(v, tail, ':');
    if tail == [] {
      assert Split(tail, ':') == [[]];
      assert v + [] == v;
    } else {
      assert tail == [] + [':'] + tail[1..];
      SplitAtSeparator([], tail[1..], ':');
      assert v + [] == v;
    }
  }

  datatype ScanFields = ScanFields(pn: string, quantity: string, po: string)

  /** The field whose extraction raised IndexError: either it is missing or it has no colon. */
  datatype FieldError = MissingField(index: nat) | NoColon(index: nat)

  /**
   * The dictionary literal of parse_tme (parteye.py:111-117): PN from field 1,
   * Quantity from field 0, PO from field 4, evaluated in that order.
   */
  function ExtractFields(fields: seq<string>): (r: Result<ScanFields, FieldError>)
    ensures r.Success? <==> |fields| >= 5 && ':' in fields[0] && ':' in fields[1] && ':' in fields[4]
    ensures r.Success? ==> && Some(r.value.pn) == FieldValue(fields[1])
                           && Some(r.value.quantity) == FieldValue(fields[0])
                           && Some(r.value.po) == FieldValue(fields[4])
    ensures r.Failure? ==> r.error == (if |fields| < 2 then MissingField(1)
                                       else if ':' !in fields[1] then NoColon(1)
                                       else if ':' !in fields[0] then NoColon(0)
                                       else if |fields| < 5 then MissingField(4)
                                       else NoColon(4))
  {
    if |fields| < 2 then Failure(MissingField(1))
    else match FieldValue(fields[1])
      case None => Failure(NoColon(1))
      case Some(pn) =>
        match FieldValue(fields[0])
        case None => Failure(NoColon(0))
        case Some(quantity) =>
          if |fields| < 5 then Failure(MissingField(4))
          else match FieldValue(fields[4])
            case None => Failure(NoColon(4))
            case Some(po) => Success(ScanFields(pn, quantity, po))
  }

  /** An accepted line is `QTY:`, the digit run, a space, `PN:` and the rest. */
  lemma MatchedLineShape(line: string)
    requires MatchesTme(line)
    ensures var n := DigitRun(line[4..]);
      && line == "QTY" + [':'] + line[4..4 + n] + [' '] + ("PN:" + line[8 + n..])
      && ' ' !in line[4..4 + n] && ':' !in line[4..4 + n]
  {
    var n := DigitRun(line[4..]);
    var digits := line[4..4 + n];
    assert line[4..][..n] == digits;
    assert forall k | 0 <= k < n :: IsDigit(digits[k]);
    assert line == line[..4] + digits + line[4 + n..8 + n] + line[8 + n..];
    assert line[4 + n..8 + n] == [' '] + "PN:";
  }

  /** Splitting `QTY:<digits> PN:<rest>` on spaces: field 0 is `QTY:<digits>`, field 1 is `PN:` and the first word of the rest. */
  lemma LeadingFields(digits: string, rest: string)
    requires ' ' !in digits && ':' !in digits
    ensures var fields := Split("QTY" + [':'] + digits + [' '] + ("PN:" + rest), ' ');
      && |fields| >= 2
      && FieldValue(fields[0]) == Some(digits)
      && fields[1] == "PN" + [':'] + Split(rest, ' ')[0]
  {
    var qty := "QTY" + [':'] + digits;
    assert ' ' !in qty by {
      forall k | 0 <= k < |qty| ensures qty[k] != ' ' {
        if k >= 4 {
          assert qty[k] == digits[k - 4];
        }
      }
    }
    SplitAtSeparator(qty, "PN:" + rest, ' ');
    assert qty == qty + [];
    FieldValueBetweenColons("QTY", digits, []);
    SplitPrefix("PN:", rest, ' ');
    assert "PN:" + Split(rest, ' ')[0] == "PN" + [':'] + Split(rest, ' ')[0];
  }

  /** `pn` is the text at the start of `rest` up to the first space, colon or the end. */
  predicate WordBeforeColon(rest: string, pn: string) {
    && |pn| <= |rest| && rest[..|pn|] == pn
    && ' ' !in pn && ':' !in pn
    && (|pn| == |rest| || rest[|pn|] in {' ', ':'})
  }

  /** The value of `PN:` followed by a space-free word is that word's text up to its first colon. */
  lemma PnValue(rest: string)
    ensures FieldValue("PN" + [':'] + Split(rest, ' ')[0]).Some?
    ensures WordBeforeColon(rest, FieldValue("PN" + [':'] + Split(rest, ' ')[0]).value)
  {
    var w := Split(rest, ' ')[0];
    SplitAtSeparator("PN", w, ':');
    var pn := Split(w, ':')[0];
    assert FieldValue("PN" + [':'] + w) == Some(pn);
    SplitFirstPiece(rest, ' ');
    SplitFirstPiece(w, ':');
    assert forall k | 0 <= k < |pn| :: pn[k] == w[k] == rest[k];
  }

  /** Extraction from `QTY:<digits> PN:<rest>`, split on spaces. */
  lemma FieldsOfAccepted(digits: string, rest: string)
    requires ' ' !in digits && ':' !in digits
    ensures var fields := Split("QTY" + [':'] + digits + [' '] + ("PN:" + rest), ' ');
      var r := ExtractFields(fields);
      && (r.Success? <==> |fields| >= 5 && ':' in fields[4])
      && (r.Success? ==> r.value.quantity == digits && WordBeforeColon(rest, r.value.pn))
  {
    var fields := Split("QTY" + [':'] + digits + [' '] + ("PN:" + rest), ' ');
    LeadingFields(digits, rest);
    PnValue(rest);
    assert FieldValue(fields[0]).Some?;
    assert fields[1][2] == ':';
  }

  /**
   * On a line the pattern accepts, fields 0 and 1 always have a colon, so the
   * extraction fails exactly when field 4 is missing or has no colon. Quantity
   * is then the digit run after `QTY:`, and PN is the text after `PN:` up to
   * the next space, colon or the end of the line.
   */
  lemma MatchedLineFields(line: string)
    requires Classify(line) == TmeScan
    ensures var fields := Split(line, ' ');
      var r := ExtractFields(fields);
      && (r.Success? <==> |fields| >= 5 && ':' in fields[4])
      && (r.Success? ==>
            var n := DigitRun(line[4..]);
            && n > 0 && r.value.quantity == line[4..4 + n] && AllDigits(r.value.quantity)
            && WordBeforeColon(line[8 + n..], r.value.pn))
  {
    assert MatchesTme(line);
    var n := DigitRun(line[4..]);
    MatchedLineShape(line);
    FieldsOfAccepted(line[4..4 + n], line[8 + n..]);
    assert line[4..][..n] == line[4..4 + n];
  }

  /** The six fields of a TME label, in the order parse_tme's documentation gives them. */
  datatype Label = Label(quantity: string, pn: string, mfr: string, mpn: string, po: string, url: string)

  /** The fields of a label as the scanner types them, tagged and separated by single spaces. */
  function LabelFields(l: Label): seq<string> {
    ["QTY:" + l.quantity, "PN:" + l.pn, "MFR:" + l.mfr, "MPN:" + l.mpn, "PO:" + l.po, l.url]
  }

  function LabelLine(l: Label): string {
    Join(LabelFields(l), ' ')
  }

  /** A label as the scanner emits it: a digit count, space-free fields, a TME url, no line feed. */
  ghost predicate WellFormedLabel(l: Label) {
    && l.quantity != [] && AllDigits(l.quantity)
    && ' ' !in l.pn && ':' !in l.pn && '\n' !in l.pn
    && ' ' !in l.mfr && '\n' !in l.mfr
    && ' ' !in l.mpn && '\n' !in l.mpn
    && ' ' !in l.po && ':' !in l.po && '\n' !in l.po
    && ' ' !in l.url && '\n' !in l.url && MarkerSomewhere(l.url)
  }

  lemma {:induction false} JoinWithout(parts: seq<string>, sep: char, c: char)
    requires c != sep
    requires forall i | 0 <= i < |parts| :: c !in parts[i]
    ensures c !in Join(parts, sep)
    decreases |parts|
  {
    if |parts| > 1 {
      JoinWithout(parts[1..], sep, c);
    }
  }

  /** A marker found in `y` is still found after a prefix with no line feed. */
  lemma MarkerShift(x: string, y: string, j: nat)
    requires '\n' !in x && MarkerAt(y, j)
    ensures MarkerAt(x + y, |x| + j)
  {
    assert (x + y)[|x| + j..|x| + j + 6] == y[j..j + 6];
    assert (x + y)[..|x| + j] == x + y[..j];
  }

  /** `tme.eu` in the last part of a join is found in the whole, when no earlier part has a line feed. */
  lemma {:induction false} JoinMarker(parts: seq<string>, sep: char)
    requires |parts| >= 1 && sep != '\n'
    requires MarkerSomewhere(parts[|parts| - 1])
    requires forall i | 0 <= i < |parts| - 1 :: '\n' !in parts[i]
    ensures MarkerSomewhere(Join(parts, sep))
    decreases |parts|
  {
    if |parts| > 1 {
      JoinMarker(parts[1..], sep);
      var j: nat :| MarkerAt(Join(parts[1..], sep), j);
      MarkerShift(parts[0] + [sep], Join(parts[1..], sep), j);
    }
  }

  /** A line that opens with `QTY:`, digits and ` PN:` and has `tme.eu` later, with no line feed before it, is accepted. */
  lemma ShapeAccepted(digits: string, rest: string)
    requires digits != [] && AllDigits(digits)
    requires MarkerSomewhere(rest)
    ensures Classify("QTY:" + digits + [' '] + ("PN:" + rest)) == TmeScan
  {
    var line := "QTY:" + digits + [' '] + ("PN:" + rest);
    var n := |digits|;
    assert line[..4] == "QTY:";
    assert line[4..4 + n] == digits;
    assert line[4 + n..8 + n] == " PN:";
    assert line[8 + n..] == rest;
    assert QtyPnPrefix(line, n);
  }

  /** A line formatted from a well-formed label is accepted. */
  lemma LabelAccepted(l: Label)
    requires WellFormedLabel(l)
    ensures Classify(LabelLine(l)) == TmeScan
  {
    var f := LabelFields(l);
    var tail := [l.pn] + f[2..];
    assert tail[1..] == f[2..];
    JoinMarker(tail, ' ');
    assert Join(f[1..], ' ') == "PN:" + l.pn + [' '] + Join(f[2..], ' ');
    assert Join(f[1..], ' ') == "PN:" + Join(tail, ' ');
    ShapeAccepted(l.quantity, Join(tail, ' '));
  }

  /** Splitting a formatted label at spaces gives back its six fields. */
  lemma LabelSplit(l: Label)
    requires WellFormedLabel(l)
    ensures Split(LabelLine(l), ' ') == LabelFields(l)
  {
    var f := LabelFields(l);
    assert ' ' !in f[0] && ' ' !in f[1] && ' ' !in f[2];
    assert ' ' !in f[3] && ' ' !in f[4] && ' ' !in f[5];
    SplitJoin(f, ' ');
  }

  /** The tagged fields of a well-formed label yield the tagged values. */
  lemma LabelValues(l: Label)
    requires WellFormedLabel(l)
    ensures FieldValue(LabelFields(l)[0]) == Some(l.quantity)
    ensures FieldValue(LabelFields(l)[1]) == Some(l.pn)
    ensures FieldValue(LabelFields(l)[4]) == Some(l.po)
  {
    var f := LabelFields(l);
    assert ':' !in l.quantity;
    FieldValueBetweenColons("QTY", l.quantity, []);
    FieldValueBetweenColons("PN", l.pn, []);
    FieldValueBetweenColons("PO", l.po, []);
    assert f[0] == "QTY" + [':'] + l.quantity + [];
    assert f[1] == "PN" + [':'] + l.pn + [];
    assert f[4] == "PO" + [':'] + l.po + [];
  }

  /** Round trip: parsing a line formatted from a well-formed label gives back its PN, count and order number. */
  lemma LabelRoundTrip(l: Label)
    requires WellFormedLabel(l)
    ensures Classify(LabelLine(l)) == TmeScan
    ensures ExtractFields(Split(LabelLine(l), ' ')) == Success(ScanFields(l.pn, l.quantity, l.po))
  {
    LabelAccepted(l);
    LabelSplit(l);
    LabelValues(l);
    ExtractFieldsOf(LabelFields(l), l.pn, l.quantity, l.po);
  }

  /** Extraction succeeds with the values of fields 1, 0 and 4 once each has a value. */
  lemma ExtractFieldsOf(fields: seq<string>, pn: string, quantity: string, po: string)
    requires |fields| >= 5
    requires FieldValue(fields[1]) == Some(pn)
    requires FieldValue(fields[0]) == Some(quantity)
    requires FieldValue(fields[4]) == Some(po)
    ensures ExtractFields(fields) == Success(ScanFields(pn, quantity, po))
  {
  }

  /** The url of the sample of parse_tme's documentation (parteye.py:100-101). */
  const DocumentedUrl: string := "https://www." + ("tme.eu" + "/details/HA50151V4")

  const DocumentedLabel: Label :=
    Label("1", "HA50151V4", "SUNON", "HA50151V4-000U-999", "5094268/9", DocumentedUrl)

  /** The documented url has no space or line feed. */
  lemma DocumentedUrlPlain()
    ensures ' ' !in DocumentedUrl && '\n' !in DocumentedUrl
  {
  }

  /** The documented url names `tme.eu` right after `https://www.`. */
  lemma DocumentedUrlMarker()
    ensures MarkerSomewhere(DocumentedUrl)
  {
    var tail := "tme.eu" + "/details/HA50151V4";
    assert tail[0..6] == "tme.eu";
    assert MarkerAt(tail, 0);
    MarkerShift("https://www.", tail, 0);
  }

  /** The documented fields, with any url that names `tme.eu`, form a well-formed label. */
  lemma DocumentedFieldsWellFormed(url: string)
    requires ' ' !in url && '\n' !in url && MarkerSomewhere(url)
    ensures WellFormedLabel(Label("1", "HA50151V4", "SUNON", "HA50151V4-000U-999", "5094268/9", url))
  {
  }

  /** The documented sample is a well-formed label. */
  lemma DocumentedWellFormed()
    ensures WellFormedLabel(DocumentedLabel)
  {
    DocumentedUrlPlain();
    DocumentedUrlMarker();
    DocumentedFieldsWellFormed(DocumentedUrl);
  }

  /** The documented sample is accepted and yields PN `HA50151V4`, Quantity `1` and PO `5094268/9`. */
  lemma DocumentedSample()
    ensures Classify(LabelLine(DocumentedLabel)) == TmeScan
    ensures ExtractFields(Split(LabelLine(DocumentedLabel), ' ')) == Success(ScanFields("HA50151V4", "1", "5094268/9"))
  {
    DocumentedWellFormed();
    LabelRoundTrip(DocumentedLabel);
  }
}
