/** `sanitizeInput`, which both donation scripts define identically
    (donation-form.js and script.js): drop every `<` and `>`, then every
    case-insensitive `javascript:`, then every `on<word>=` event-handler
    prefix, each in ONE left-to-right pass of `String.prototype.replace` with
    a global regular expression, and trim the result. */
module Sanitizer {
  import opened JsText

  /** What `sanitizeInput` may be handed: a string, or any other JavaScript
      value (identified here only by an opaque tag). */
  datatype InputValue = Text(s: string) | NonText(tag: int)

  const JavascriptScheme := "javascript:"

  predicate NoAngleBrackets(s: string)
  {
    forall i :: 0 <= i < |s| ==> s[i] != '<' && s[i] != '>'
  }

  /** `replace(/[<>]/g, '')` */
  function StripAngles(s: string): (r: string)
    ensures |r| <= |s| && NoAngleBrackets(r)
    ensures NoAngleBrackets(s) ==> r == s
    ensures !NoAngleBrackets(s) ==> |r| < |s|
  {
    if s == [] then []
    else if s[0] == '<' || s[0] == '>' then StripAngles(s[1..])
    else [s[0]] + StripAngles(s[1..])
  }

  /** `s` begins with `pat` when ASCII case is ignored (`pat` is lower case). */
  predicate StartsWithCI(s: string, pat: string)
  {
    |pat| <= |s| && forall i :: 0 <= i < |pat| ==> LowerChar(s[i]) == pat[i]
  }

  /** What a regular expression `/pat/i` finds somewhere in `s`. */
  predicate ContainsCI(s: string, pat: string)
  {
    exists i :: 0 <= i <= |s| && StartsWithCI(s[i..], pat)
  }

  /** `replace(/pat/gi, '')`: scan left to right, deleting each match and
      resuming after it; what a deletion brings together is not rescanned. */
  function StripLiteral(s: string, pat: string): (r: string)
    requires |pat| > 0
    ensures |r| <= |s|
    ensures NoAngleBrackets(s) ==> NoAngleBrackets(r)
    decreases |s|
  {
    if s == [] then []
    else if StartsWithCI(s, pat) then StripLiteral(s[|pat|..], pat)
    else [s[0]] + StripLiteral(s[1..], pat)
  }

  /** The end of the run of `\w` characters that starts at `k`. */
  function WordRunEnd(s: string, k: nat): (j: nat)
    requires k <= |s|
    ensures k <= j <= |s|
    ensures forall m :: k <= m < j ==> IsWordChar(s[m])
    ensures j == |s| || !IsWordChar(s[j])
    decreases |s| - k
  {
    if k < |s| && IsWordChar(s[k]) then WordRunEnd(s, k + 1) else k
  }

  /** Length of the match of `/on\w+=/i` at the start of `s`, 0 if none.
      `\w+` is greedy and `=` is not a word character, so the match exists
      exactly when the whole word run after `on` is followed by `=`. */
  function HandlerMatchLength(s: string): (n: nat)
    ensures n == 0 || 4 <= n <= |s|
  {
    if 3 <= |s| && LowerChar(s[0]) == 'o' && LowerChar(s[1]) == 'n' && IsWordChar(s[2]) then
      var j := WordRunEnd(s, 2);
      if j < |s| && s[j] == '=' then j + 1 else 0
    else 0
  }

  /** `/on\w+=/i` matches somewhere in `s`. */
  predicate ContainsHandler(s: string)
  {
    exists i :: 0 <= i <= |s| && HandlerMatchLength(s[i..]) > 0
  }

  /** `replace(/on\w+=/gi, '')` */
  function StripHandlers(s: string): (r: string)
    ensures |r| <= |s|
    ensures NoAngleBrackets(s) ==> NoAngleBrackets(r)
    decreases |s|
  {
    if s == [] then []
    else
      var n := HandlerMatchLength(s);
      if n > 0 then StripHandlers(s[n..]) else [s[0]] + StripHandlers(s[1..])
  }

  /** `sanitizeInput` on a string. */
  function Sanitize(s: string): string
  {
    Trim(StripHandlers(StripLiteral(StripAngles(s), JavascriptScheme)))
  }

  /** `sanitizeInput` on any value: anything but a string is returned as is. */
  function SanitizeValue(v: InputValue): InputValue
  {
    match v
    case Text(s) => Text(Sanitize(s))
    case NonText(_) => v
  }

  /** Non-strings pass through unchanged; a string comes back without angle
      brackets, without white space at either end, and no longer. */
  lemma SanitizeValueSpec(v: InputValue)
    ensures v.NonText? ==> SanitizeValue(v) == v
    ensures v.Text? ==> (SanitizeValue(v).Text? &&
      var r := SanitizeValue(v).s;
      |r| <= |v.s| && NoAngleBrackets(r) &&
      (r == [] || (!IsWhitespace(r[0]) && !IsWhitespace(r[|r| - 1]))))
  {
    if v.Text? {
      var a := StripAngles(v.s);
      var h := StripHandlers(StripLiteral(a, JavascriptScheme));
      var t := TrimStart(h);
      TrimStartSpec(h);
      TrimEndSpec(t);
      assert NoAngleBrackets(t) by {
        forall m | 0 <= m < |t| ensures t[m] != '<' && t[m] != '>' {
          assert t[m] == h[|h| - |t| + m];
        }
      }
    }
  }

  /** A sanitised string is free of angle brackets and already trimmed. */
  lemma SanitizedIsClean(s: string)
    ensures NoAngleBrackets(Sanitize(s)) && Trim(Sanitize(s)) == Sanitize(s)
  {
    SanitizeValueSpec(Text(s));
    TrimIdempotent(StripHandlers(StripLiteral(StripAngles(s), JavascriptScheme)));
  }

  lemma {:induction false} StripLiteralIdentityIff(s: string, pat: string)
    requires |pat| > 0
    ensures StripLiteral(s, pat) == s <==> !ContainsCI(s, pat)
    ensures ContainsCI(s, pat) ==> |StripLiteral(s, pat)| < |s|
    decreases |s|
  {
    if s == [] {
    } else if StartsWithCI(s, pat) {
      assert s[0..] == s;
    } else {
      StripLiteralIdentityIff(s[1..], pat);
      if ContainsCI(s, pat) {
        var i :| 0 <= i <= |s| && StartsWithCI(s[i..], pat);
        assert i != 0 by { assert s[0..] == s; }
        assert s[1..][i - 1..] == s[i..];
      } else {
        forall i | 0 <= i <= |s[1..]|
          ensures !StartsWithCI(s[1..][i..], pat)
        {
          assert s[1..][i..] == s[i + 1..];
        }
      }
    }
  }

  lemma {:induction false} StripHandlersIdentityIff(s: string)
    ensures StripHandlers(s) == s <==> !ContainsHandler(s)
    ensures ContainsHandler(s) ==> |StripHandlers(s)| < |s|
    decreases |s|
  {
    if s == [] {
    } else if HandlerMatchLength(s) > 0 {
      assert s[0..] == s;
    } else {
      StripHandlersIdentityIff(s[1..]);
      if ContainsHandler(s) {
        var i :| 0 <= i <= |s| && HandlerMatchLength(s[i..]) > 0;
        assert i != 0 by { assert s[0..] == s; }
        assert s[1..][i - 1..] == s[i..];
      } else {
        forall i | 0 <= i <= |s[1..]|
          ensures HandlerMatchLength(s[1..][i..]) == 0
        {
          assert s[1..][i..] == s[i + 1..];
        }
      }
    }
  }

  /** The strings `sanitizeInput` leaves unchanged are exactly the clean ones:
      no angle bracket, no `javascript:` and no `on<word>=` in any case, and no
      white space at either end. */
  lemma SanitizeFixedIff(s: string)
    ensures Sanitize(s) == s <==>
      NoAngleBrackets(s) && !ContainsCI(s, JavascriptScheme) && !ContainsHandler(s) && Trim(s) == s
  {
    var a := StripAngles(s);
    var j := StripLiteral(a, JavascriptScheme);
    var h := StripHandlers(j);
    StripLiteralIdentityIff(a, JavascriptScheme);
    StripHandlersIdentityIff(j);
    TrimIsMiddle(h);
  }
}
