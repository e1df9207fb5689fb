/** The e-mail check shared by both donation scripts (donation-form.js:209,
    script.js:628). Its regular expression is the "valid e-mail address"
    grammar of the WHATWG HTML Living Standard (section 4.10.5.1.5, E-mail
    state): a non-empty local part of atext characters and dots, one `@`, and
    a domain of dot-separated labels, each 1 to 63 letters, digits and
    hyphens that begins and ends with a letter or digit.

    The grammar is stated declaratively (`IsValidEmailAddress`, through
    `Split`); the regular expression is modelled as a hand-written
    left-to-right recogniser (`MatchesEmailPattern`, a finite automaton); and
    `EmailPatternIsGrammar` proves the two agree on every string. */
module EmailGrammar {
  import opened JsText

  /** `s.split(sep)`: the pieces between separators, always at least one. */
  function Split(s: string, sep: char): (parts: seq<string>)
    ensures |parts| >= 1
    decreases |s|
  {
    if s == [] then [[]]
    else
      var p := Split(s[..|s| - 1], sep);
      if s[|s| - 1] == sep then p + [[]]
      else p[..|p| - 1] + [p[|p| - 1] + [s[|s| - 1]]]
  }

  /** Splitting a string that does not contain the separator gives it back whole. */
  lemma {:induction false} SplitWithoutSeparator(s: string, sep: char)
    requires sep !in s
    ensures Split(s, sep) == [s]
    decreases |s|
  {
    if s != [] {
      var t := s[..|s| - 1];
      assert sep !in t by {
        forall k | 0 <= k < |t| ensures t[k] != sep { assert t[k] == s[k]; }
      }
      SplitWithoutSeparator(t, sep);
      assert s[|s| - 1] != sep;
      assert t + [s[|s| - 1]] == s;
    }
  }

  /** How `Split` extends when one more character arrives. */
  lemma SplitSnoc(s: string, c: char, sep: char)
    ensures var p := Split(s, sep);
      Split(s + [c], sep) ==
        if c == sep then p + [[]] else p[..|p| - 1] + [p[|p| - 1] + [c]]
  {
    assert (s + [c])[..|s + [c]| - 1] == s;
  }

  /** The symbols of atext, ``!#$%&'*+/=?^_`{|}~-``, and `.`. */
  predicate IsLocalSymbol(c: char)
  {
    c == '.' || c == '!' || c == '#' || c == '$' || c == '%' || c == '&' || c == '\'' ||
    c == '*' || c == '+' || c == '/' || c == '=' || c == '?' || c == '^' || c == '_' ||
    c == '`' || c == '{' || c == '|' || c == '}' || c == '~' || c == '-'
  }

  /** atext and `.`, the characters of the local part. */
  predicate IsLocalChar(c: char)
  {
    IsAsciiAlnum(c) || IsLocalSymbol(c)
  }

  predicate IsLabelChar(c: char)
  {
    IsAsciiAlnum(c) || c == '-'
  }

  predicate AllLocalChars(s: string)
  {
    forall i :: 0 <= i < |s| ==> IsLocalChar(s[i])
  }

  /** A label read so far: non-empty, at most 63 characters, starting with a
      letter or digit, the rest letters, digits or hyphens. */
  predicate IsLabelPrefix(l: string)
  {
    1 <= |l| <= 63 && IsAsciiAlnum(l[0]) && forall i :: 0 <= i < |l| ==> IsLabelChar(l[i])
  }

  /** A complete label also ends with a letter or digit. */
  predicate IsValidLabel(l: string)
  {
    IsLabelPrefix(l) && IsAsciiAlnum(l[|l| - 1])
  }

  predicate AllValidLabels(labels: seq<string>)
  {
    forall k :: 0 <= k < |labels| ==> IsValidLabel(labels[k])
  }

  /** The WHATWG grammar: exactly one `@`, a non-empty local part of local
      characters, and a domain all of whose dot-separated labels are valid. */
  predicate IsValidEmailAddress(s: string)
  {
    var parts := Split(s, '@');
    |parts| == 2 && |parts[0]| > 0 && AllLocalChars(parts[0]) &&
    AllValidLabels(Split(parts[1], '.'))
  }

  /** The domain as `value.split('@')[1]` reads it (absent without an `@`). */
  function DomainOf(s: string): Option<string>
  {
    var parts := Split(s, '@');
    if |parts| >= 2 then Some(parts[1]) else None
  }

  /** States of the recogniser: still in the local part (having seen a
      character or not), just after `@` or `.`, inside a label of `len`
      characters whose last one is or is not a letter or digit, or failed. */
  datatype MatchState = Local(seen: bool) | LabelStart | InLabel(len: nat, endsAlnum: bool) | Dead

  function Step(q: MatchState, c: char): MatchState
  {
    match q
    case Local(seen) =>
      if IsLocalChar(c) then Local(true)
      else if c == '@' && seen then LabelStart
      else Dead
    case LabelStart =>
      if IsAsciiAlnum(c) then InLabel(1, true) else Dead
    case InLabel(len, endsAlnum) =>
      if IsAsciiAlnum(c) && len < 63 then InLabel(len + 1, true)
      else if c == '-' && len < 63 then InLabel(len + 1, false)
      else if c == '.' && endsAlnum then LabelStart
      else Dead
    case Dead => Dead
  }

  function Run(s: string): MatchState
    decreases |s|
  {
    if s == [] then Local(false) else Step(Run(s[..|s| - 1]), s[|s| - 1])
  }

  /** The recogniser standing for `emailRegex.test(s)`. */
  predicate MatchesEmailPattern(s: string)
  {
    var q := Run(s);
    q.InLabel? && q.endsAlnum
  }

  /** The state inside the domain, given whether the labels before the
      current one are all valid and the current label read so far. */
  function LabelState(priorValid: bool, last: string): MatchState
  {
    if !priorValid then Dead
    else if last == [] then LabelStart
    else if IsLabelPrefix(last) then InLabel(|last|, IsAsciiAlnum(last[|last| - 1]))
    else Dead
  }

  /** The state the recogniser should be in after reading a domain prefix `d`. */
  function DomainState(d: string): MatchState
  {
    var labels := Split(d, '.');
    LabelState(AllValidLabels(labels[..|labels| - 1]), labels[|labels| - 1])
  }

  /** The state while no `@` has been read. */
  function LocalState(s: string): MatchState
  {
    if AllLocalChars(s) then Local(|s| > 0) else Dead
  }

  /** The state the recogniser should be in after reading `s`, from the grammar. */
  function ExpectedState(s: string): MatchState
  {
    var parts := Split(s, '@');
    if |parts| == 1 then LocalState(s)
    else if |parts| == 2 && |parts[0]| > 0 && AllLocalChars(parts[0]) then DomainState(parts[1])
    else Dead
  }

  /** One domain character moves the expected state as one recogniser step does. */
  lemma DomainStep(d: string, c: char)
    requires c != '@'
    ensures DomainState(d + [c]) == Step(DomainState(d), c)
  {
    if c == '.' {
      DomainDotStep(d);
    } else {
      DomainLabelCharStep(d, c);
    }
  }

  /** A `.` closes the current label: the domain goes on only if it is valid. */
  lemma DomainDotStep(d: string)
    ensures DomainState(d + ['.']) == Step(DomainState(d), '.')
  {
    SplitSnoc(d, '.', '.');
    var labels := Split(d, '.');
    var m := |labels|;
    var last := labels[m - 1];
    var labels' := Split(d + ['.'], '.');
    assert labels' == labels + [[]];
    assert labels'[..m] == labels;
    if AllValidLabels(labels[..m - 1]) && IsValidLabel(last) {
      assert AllValidLabels(labels) by {
        forall k | 0 <= k < m ensures IsValidLabel(labels[k]) {
          if k < m - 1 { assert labels[k] == labels[..m - 1][k]; }
        }
      }
      assert DomainState(d + ['.']) == LabelStart;
    } else if !AllValidLabels(labels[..m - 1]) {
      var k :| 0 <= k < m - 1 && !IsValidLabel(labels[..m - 1][k]);
      assert labels[..m - 1][k] == labels[k];
      assert DomainState(d) == Dead;
      assert DomainState(d + ['.']) == Dead;
    } else {
      assert !AllValidLabels(labels);
      assert DomainState(d + ['.']) == Dead;
    }
  }

  /** Any other character extends the current label. */
  lemma DomainLabelCharStep(d: string, c: char)
    requires c != '@' && c != '.'
    ensures DomainState(d + [c]) == Step(DomainState(d), c)
  {
    SplitSnoc(d, c, '.');
    var labels := Split(d, '.');
    var m := |labels|;
    var labels' := Split(d + [c], '.');
    assert |labels'| == m;
    assert labels'[..m - 1] == labels[..m - 1];
    assert labels'[m - 1] == labels[m - 1] + [c];
    ExtendLabel(AllValidLabels(labels[..m - 1]), labels[m - 1], c);
  }

  lemma ExtendLabel(priorValid: bool, last: string, c: char)
    requires c != '@' && c != '.'
    ensures LabelState(priorValid, last + [c]) == Step(LabelState(priorValid, last), c)
  {
    if priorValid {
      if last == [] {
        assert last + [c] == [c];
        assert IsLabelPrefix([c]) <==> IsAsciiAlnum(c);
      } else {
        LabelPrefixSnoc(last, c);
        assert (last + [c])[|last|] == c;
      }
    }
  }

  /** A label prefix grows by one label character up to 63 characters. */
  lemma LabelPrefixSnoc(l: string, c: char)
    requires l != []
    ensures IsLabelPrefix(l + [c]) <==> IsLabelPrefix(l) && |l| < 63 && IsLabelChar(c)
  {
    var l' := l + [c];
    assert l'[0] == l[0] && l'[|l|] == c;
    if IsLabelPrefix(l') {
      forall i | 0 <= i < |l| ensures IsLabelChar(l[i]) {
        assert l[i] == l'[i];
      }
    }
    if IsLabelPrefix(l) && |l| < 63 && IsLabelChar(c) {
      forall i | 0 <= i < |l'| ensures IsLabelChar(l'[i]) {
        if i < |l| { assert l'[i] == l[i]; }
      }
    }
  }

  /** Before any `@`: local characters keep the recogniser in the local
      part, and the first `@` after at least one of them opens the domain. */
  lemma LocalStep(t: string, c: char)
    requires |Split(t, '@')| == 1
    ensures ExpectedState(t + [c]) == Step(ExpectedState(t), c)
  {
    assert Split(t, '@') == [t] by {
      if '@' in t { SplitCountsSeparator(t, '@'); }
      SplitWithoutSeparator(t, '@');
    }
    if c == '@' {
      FirstAtStep(t);
    } else {
      LocalCharStep(t, c);
    }
  }

  /** The first `@` opens the domain when a non-empty local part precedes it. */
  lemma FirstAtStep(t: string)
    requires Split(t, '@') == [t]
    ensures ExpectedState(t + ['@']) == Step(ExpectedState(t), '@')
  {
    ExpectedAfterFirstAt(t);
    AtIsNotLocal();
    if !AllLocalChars(t) {
      assert ExpectedState(t) == Dead;
    } else {
      assert ExpectedState(t) == Local(|t| > 0);
    }
  }

  lemma AtIsNotLocal()
    ensures !IsLocalChar('@')
  {
  }

  lemma ExpectedAfterFirstAt(t: string)
    requires Split(t, '@') == [t]
    ensures ExpectedState(t + ['@']) == if |t| > 0 && AllLocalChars(t) then LabelStart else Dead
  {
    var u := t + ['@'];
    SplitSnoc(t, '@', '@');
    var parts := Split(u, '@');
    assert parts == [t, []];
    EmptyDomainState();
    if |t| > 0 && AllLocalChars(t) {
      assert ExpectedState(u) == DomainState(parts[1]);
    } else {
      assert |parts| != 1;
    }
  }

  lemma EmptyDomainState()
    ensures DomainState([]) == LabelStart
  {
    assert Split([], '.') == [[]];
  }

  lemma LocalCharStep(t: string, c: char)
    requires Split(t, '@') == [t] && c != '@'
    ensures ExpectedState(t + [c]) == Step(ExpectedState(t), c)
  {
    SplitSnoc(t, c, '@');
    assert Split(t + [c], '@') == [t + [c]];
    assert ExpectedState(t + [c]) == LocalState(t + [c]);
    ExtendLocal(t, c);
  }

  lemma ExtendLocal(t: string, c: char)
    requires c != '@'
    ensures LocalState(t + [c]) == Step(LocalState(t), c)
  {
    assert AllLocalChars(t + [c]) <==> AllLocalChars(t) && IsLocalChar(c) by {
      assert forall i :: 0 <= i < |t| ==> (t + [c])[i] == t[i];
      assert (t + [c])[|t|] == c;
    }
  }

  /** After the `@`: a second `@` fails, anything else is a domain step. */
  lemma AfterAtStep(t: string, c: char)
    requires var p := Split(t, '@'); |p| == 2 && |p[0]| > 0 && AllLocalChars(p[0])
    ensures ExpectedState(t + [c]) == Step(ExpectedState(t), c)
  {
    var p := Split(t, '@');
    assert ExpectedState(t) == DomainState(p[1]);
    if c != '@' {
      DomainCharAfterAt(t, c);
      DomainStep(p[1], c);
    } else {
      SecondAt(t);
      SecondAtFails(DomainState(p[1]));
    }
  }

  lemma DomainCharAfterAt(t: string, c: char)
    requires var p := Split(t, '@'); |p| == 2 && |p[0]| > 0 && AllLocalChars(p[0])
    requires c != '@'
    ensures ExpectedState(t + [c]) == DomainState(Split(t, '@')[1] + [c])
  {
    SplitSnoc(t, c, '@');
    var p := Split(t, '@');
    assert Split(t + [c], '@') == [p[0], p[1] + [c]];
  }

  lemma SecondAt(t: string)
    requires |Split(t, '@')| == 2
    ensures ExpectedState(t + ['@']) == Dead
  {
    SplitSnoc(t, '@', '@');
    assert |Split(t + ['@'], '@')| == 3;
  }

  /** Within the domain an `@` is never accepted. */
  lemma SecondAtFails(q: MatchState)
    requires !q.Local?
    ensures Step(q, '@') == Dead
  {
  }

  /** Once the grammar is violated, no further character repairs it. */
  lemma DeadStep(t: string, c: char)
    requires var p := Split(t, '@');
      |p| != 1 && !(|p| == 2 && |p[0]| > 0 && AllLocalChars(p[0]))
    ensures ExpectedState(t + [c]) == Dead
  {
    SplitSnoc(t, c, '@');
  }

  lemma ExpectedStep(t: string, c: char)
    ensures ExpectedState(t + [c]) == Step(ExpectedState(t), c)
  {
    var p := Split(t, '@');
    if |p| == 1 {
      LocalStep(t, c);
    } else if |p| == 2 && |p[0]| > 0 && AllLocalChars(p[0]) {
      AfterAtStep(t, c);
    } else {
      DeadStep(t, c);
    }
  }

  /** After every prefix the recogniser is in the state the grammar predicts. */
  lemma {:induction false} RunIsExpected(s: string)
    ensures Run(s) == ExpectedState(s)
    decreases |s|
  {
    if s == [] {
      assert Split(s, '@') == [[]];
    } else {
      var t := s[..|s| - 1];
      var c := s[|s| - 1];
      assert s == t + [c];
      RunIsExpected(t);
      ExpectedStep(t, c);
    }
  }

  /** The recogniser accepts exactly the addresses the grammar describes. */
  lemma EmailPatternIsGrammar(s: string)
    ensures MatchesEmailPattern(s) <==> IsValidEmailAddress(s)
  {
    RunIsExpected(s);
    var parts := Split(s, '@');
    if |parts| == 2 && |parts[0]| > 0 && AllLocalChars(parts[0]) {
      var labels := Split(parts[1], '.');
      var m := |labels|;
      if AllValidLabels(labels) {
        assert IsValidLabel(labels[m - 1]);
        var prior := labels[..m - 1];
        assert AllValidLabels(prior) by {
          forall k | 0 <= k < |prior| ensures IsValidLabel(prior[k]) {
            assert prior[k] == labels[k];
          }
        }
      } else if MatchesEmailPattern(s) {
        assert AllValidLabels(labels) by {
          forall k | 0 <= k < m ensures IsValidLabel(labels[k]) {
            if k < m - 1 { assert labels[k] == labels[..m - 1][k]; }
          }
        }
      }
    }
  }

  /** An address the grammar accepts has exactly one `@` and a domain. */
  lemma ValidAddressHasDomain(s: string)
    requires IsValidEmailAddress(s)
    ensures DomainOf(s) == Some(Split(s, '@')[1])
    ensures Split(s, '@')[0] + "@" + Split(s, '@')[1] == s
  {
    SplitJoin(s, '@');
  }

  /** Joining the two pieces of a split at the single separator restores the string. */
  lemma {:induction false} SplitJoin(s: string, sep: char)
    requires |Split(s, sep)| == 2
    ensures Split(s, sep)[0] + [sep] + Split(s, sep)[1] == s
    decreases |s|
  {
    var t := s[..|s| - 1];
    var c := s[|s| - 1];
    assert s == t + [c];
    var p := Split(t, sep);
    if c == sep {
      assert sep !in t by {
        if sep in t { SplitCountsSeparator(t, sep); }
      }
      SplitWithoutSeparator(t, sep);
    } else {
      SplitJoin(t, sep);
    }
  }

  /** A string that contains the separator splits into two or more pieces. */
  lemma {:induction false} SplitCountsSeparator(s: string, sep: char)
    requires sep in s
    ensures |Split(s, sep)| >= 2
    decreases |s|
  {
    var t := s[..|s| - 1];
    assert s == t + [s[|s| - 1]];
    if s[|s| - 1] != sep {
      SplitCountsSeparator(t, sep);
    }
  }
}
