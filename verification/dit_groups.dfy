/**
 DIT groups and their business units (main/models.py). A group stores its
 business units as free text, one unit per line; the text is validated on
 entry and parsed back into a list whenever the booking and PRA wizards offer
 the units as choices.
 */
module DitGroups {
  import opened Results
  import opened Text

  /** What the getter falls back to when the text holds no unit at all. */
  const UnknownUnit: string := "Unknown"

  const NoUnitsMessage: string := "At least one business unit must be defined"

  /** `value` and `DitGroup.business_units` are a nullable text. */
  datatype DitGroup = DitGroup(name: string, businessUnits: Option<string>)

  /** A well-formed business unit: non-empty, no surrounding whitespace, one line. */
  predicate IsUnit(u: string) {
    u != "" && IsStripped(u) && '\n' !in u
  }

  predicate HasNonBlankLine(lines: seq<string>) {
    exists i :: 0 <= i < |lines| && Strip(lines[i]) != ""
  }

  /** The comprehension `[x.strip() for x in lines if x.strip()]`: each line
      stripped, blank ones dropped, order kept. */
  function StrippedNonBlank(lines: seq<string>): (units: seq<string>)
    ensures |units| <= |lines|
    ensures forall i :: 0 <= i < |units| ==> units[i] != "" && IsStripped(units[i])
    decreases |lines|
  {
    if |lines| == 0 then []
    else
      var u := Strip(lines[0]);
      (if u != "" then [u] else []) + StrippedNonBlank(lines[1..])
  }

  /** The unit list of a text exactly as main/models.py computes it: the text
      is stripped, split at newlines, and each line stripped and kept when non-blank.
      A missing or empty text has no units. */
  function ParseUnits(value: Option<string>): (units: seq<string>)
    ensures forall i :: 0 <= i < |units| ==> IsUnit(units[i])
  {
    match value
    case None => []
    case Some(text) =>
      if text == "" then []
      else
        var lines := Split(Strip(text), '\n');
        StrippedNonBlankNoNewline(lines);
        StrippedNonBlank(lines)
  }

  /** `validate_business_units`: rejects a text that yields no unit. */
  function ValidateBusinessUnits(value: Option<string>): (r: Result<(), string>)
    ensures r.Err? ==> r.error == NoUnitsMessage
  {
    if ParseUnits(value) == [] then Err(NoUnitsMessage) else Ok(())
  }

  /** `DitGroup.get_business_units`: the parsed units, or `["Unknown"]` when
      there are none, so that the caller always has something to offer. */
  function GetBusinessUnits(group: DitGroup): (units: seq<string>)
    ensures |units| >= 1
    ensures forall i :: 0 <= i < |units| ==> IsUnit(units[i])
    ensures units == ParseUnits(group.businessUnits) || units == [UnknownUnit]
  {
    var parsed := ParseUnits(group.businessUnits);
    if parsed == [] then [UnknownUnit] else parsed
  }

  // ---------------------------------------------------------------------------
  // Facts about the comprehension

  lemma {:induction false} StrippedNonBlankConcat(a: seq<string>, b: seq<string>)
    ensures StrippedNonBlank(a + b) == StrippedNonBlank(a) + StrippedNonBlank(b)
    decreases |a|
  {
    if |a| > 0 {
      assert (a + b)[0] == a[0];
      assert (a + b)[1..] == a[1..] + b;
      StrippedNonBlankConcat(a[1..], b);
    } else {
      assert a + b == b;
    }
  }

  lemma {:induction false} StrippedNonBlankNoNewline(lines: seq<string>)
    requires forall i :: 0 <= i < |lines| ==> '\n' !in lines[i]
    ensures forall i :: 0 <= i < |StrippedNonBlank(lines)| ==> '\n' !in StrippedNonBlank(lines)[i]
    decreases |lines|
  {
    if |lines| > 0 {
      StrippedNonBlankNoNewline(lines[1..]);
      if '\n' in Strip(lines[0]) {
        StripChars(lines[0], '\n');
      }
    }
  }

  lemma {:induction false} StrippedNonBlankEmpty(lines: seq<string>)
    ensures StrippedNonBlank(lines) == [] <==> !HasNonBlankLine(lines)
    decreases |lines|
  {
    if |lines| > 0 {
      StrippedNonBlankEmpty(lines[1..]);
      if HasNonBlankLine(lines[1..]) {
        var i :| 0 <= i < |lines[1..]| && Strip(lines[1..][i]) != "";
        assert Strip(lines[i + 1]) != "";
      }
      if HasNonBlankLine(lines) && Strip(lines[0]) == "" {
        var i :| 0 <= i < |lines| && Strip(lines[i]) != "";
        assert Strip(lines[1..][i - 1]) != "";
      }
    }
  }

  /** Already well-formed units pass through the comprehension unchanged. */
  lemma {:induction false} StrippedNonBlankOfUnits(units: seq<string>)
    requires forall i :: 0 <= i < |units| ==> IsUnit(units[i])
    ensures StrippedNonBlank(units) == units
    decreases |units|
  {
    if |units| > 0 {
      StripStripped(units[0]);
      StrippedNonBlankOfUnits(units[1..]);
    }
  }

  lemma InitLast<T>(s: seq<T>)
    requires |s| > 0
    ensures s[..|s| - 1] + [s[|s| - 1]] == s
  {
  }

  // ---------------------------------------------------------------------------
  // The outer `strip()` of the text changes nothing: the units are the
  // stripped non-blank lines of the text itself.

  lemma LeadingWhitespaceChangesNoUnit(c: char, s: string)
    requires IsWhitespace(c)
    ensures StrippedNonBlank(Split([c] + s, '\n')) == StrippedNonBlank(Split(s, '\n'))
  {
    var t := Split(s, '\n');
    assert ([c] + s)[1..] == s;
    if c != '\n' {
      StripWhitespacePrefix(c, t[0]);
      assert ([[c] + t[0]] + t[1..])[1..] == t[1..];
    } else {
      assert ([""] + t)[1..] == t;
    }
  }

  lemma StrippedNonBlankSingle(line: string)
    ensures StrippedNonBlank([line]) == if Strip(line) != "" then [Strip(line)] else []
  {
    assert [line][1..] == [];
  }

  lemma TrailingWhitespaceChangesNoUnit(s: string, c: char)
    requires IsWhitespace(c)
    ensures StrippedNonBlank(Split(s + [c], '\n')) == StrippedNonBlank(Split(s, '\n'))
  {
    var t := Split(s, '\n');
    SplitAppend(s, '\n', c);
    if c == '\n' {
      assert Split(s + [c], '\n') == t + [""];
      StrippedNonBlankConcat(t, [""]);
      StrippedNonBlankSingle("");
    } else {
      var n := |t| - 1;
      var init, last := t[..n], t[n];
      assert Split(s + [c], '\n') == init + [last + [c]];
      StrippedNonBlankConcat(init, [last + [c]]);
      StripWhitespaceSuffix(last, c);
      StrippedNonBlankSingle(last + [c]);
      StrippedNonBlankSingle(last);
      StrippedNonBlankConcat(init, [last]);
      InitLast(t);
    }
  }

  lemma {:induction false} WhitespacePrefixChangesNoUnit(a: string, s: string)
    requires AllWhitespace(a)
    ensures StrippedNonBlank(Split(a + s, '\n')) == StrippedNonBlank(Split(s, '\n'))
    decreases |a|
  {
    if |a| > 0 {
      assert a + s == [a[0]] + (a[1..] + s);
      assert AllWhitespace(a[1..]) by {
        forall k | 0 <= k < |a[1..]| ensures IsWhitespace(a[1..][k]) {
          assert a[1..][k] == a[k + 1];
        }
      }
      WhitespacePrefixChangesNoUnit(a[1..], s);
      LeadingWhitespaceChangesNoUnit(a[0], a[1..] + s);
    } else {
      assert a + s == s;
    }
  }

  lemma {:induction false} WhitespaceSuffixChangesNoUnit(s: string, b: string)
    requires AllWhitespace(b)
    ensures StrippedNonBlank(Split(s + b, '\n')) == StrippedNonBlank(Split(s, '\n'))
    decreases |b|
  {
    if |b| > 0 {
      var n := |b| - 1;
      assert s + b == (s + b[..n]) + [b[n]];
      assert AllWhitespace(b[..n]) by {
        forall k | 0 <= k < n ensures IsWhitespace(b[..n][k]) {
          assert b[..n][k] == b[k];
        }
      }
      WhitespaceSuffixChangesNoUnit(s, b[..n]);
      TrailingWhitespaceChangesNoUnit(s + b[..n], b[n]);
    } else {
      assert s + b == s;
    }
  }

  /** The units of a text are the stripped, non-blank lines of that text, in
      their original order: stripping the whole text first only removes lines
      that are blank anyway. */
  lemma UnitsAreNonBlankLines(text: string)
    ensures ParseUnits(Some(text)) == StrippedNonBlank(Split(text, '\n'))
  {
    if text == "" {
      assert Split(text, '\n') == [""];
      StrippedNonBlankSingle("");
    } else {
      StripChangesNoUnit(text);
    }
  }

  /** The outer `strip()` only removes whitespace around the text, which
      changes no unit. */
  lemma StripChangesNoUnit(text: string)
    ensures StrippedNonBlank(Split(Strip(text), '\n')) == StrippedNonBlank(Split(text, '\n'))
  {
    var r := Strip(text);
    var a, b := StripSplits(text);
    assert text == a + (r + b);
    WhitespacePrefixChangesNoUnit(a, r + b);
    WhitespaceSuffixChangesNoUnit(r, b);
  }

  // ---------------------------------------------------------------------------
  // The properties of the validator and the getter

  /** The validator accepts a text exactly when some line of it is not blank;
      a missing text is rejected. */
  lemma ValidatorAcceptsIffNonBlankLine(value: Option<string>)
    ensures ValidateBusinessUnits(value).Ok? <==>
            value.Some? && HasNonBlankLine(Split(value.value, '\n'))
  {
    if value.Some? {
      UnitsAreNonBlankLines(value.value);
      StrippedNonBlankEmpty(Split(value.value, '\n'));
    }
  }

  /** The getter returns the stripped non-blank lines of the text, in order,
      and `["Unknown"]` exactly when there is none. */
  lemma GetBusinessUnitsAreTextLines(group: DitGroup)
    ensures var value := group.businessUnits;
            GetBusinessUnits(group) ==
              if value.Some? && HasNonBlankLine(Split(value.value, '\n'))
              then StrippedNonBlank(Split(value.value, '\n'))
              else [UnknownUnit]
  {
    ValidatorAcceptsIffNonBlankLine(group.businessUnits);
    if group.businessUnits.Some? {
      UnitsAreNonBlankLines(group.businessUnits.value);
    }
  }

  /** Validator and getter agree: a text the validator accepts yields its own
      units, a text it rejects yields the fallback. */
  lemma ValidatorAgreesWithGetter(group: DitGroup)
    ensures ValidateBusinessUnits(group.businessUnits).Ok? ==>
            GetBusinessUnits(group) == ParseUnits(group.businessUnits) != []
    ensures ValidateBusinessUnits(group.businessUnits).Err? ==>
            GetBusinessUnits(group) == [UnknownUnit] && ParseUnits(group.businessUnits) == []
  {
  }

  /** Round trip: storing a list of well-formed units as `"\n".join(units)`, as
      the data migrations do, and reading it back gives the same list. */
  lemma BusinessUnitsRoundTrip(name: string, units: seq<string>)
    requires |units| >= 1
    requires forall i :: 0 <= i < |units| ==> IsUnit(units[i])
    ensures GetBusinessUnits(DitGroup(name, Some(Join(units, '\n')))) == units
  {
    var text := Join(units, '\n');
    UnitsAreNonBlankLines(text);
    SplitJoin(units, '\n');
    StrippedNonBlankOfUnits(units);
  }
}
