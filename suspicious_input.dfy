/** The five patterns `performSecurityChecks` (script.js:836-856) looks for,
    case-insensitively, in the name, e-mail and phone values joined by
    single spaces. */
module SuspiciousInput {
  import opened JsText
  import opened Sanitizer

  /** A regular expression of the list: a fixed text (stored in lower case)
      or the event-handler pattern `/on\w+=/i`. */
  datatype Pattern = Literal(text: string) | EventHandler

  const SuspiciousPatterns: seq<Pattern> :=
    [Literal("<script"), Literal("javascript:"), EventHandler, Literal("eval("), Literal("document.")]

  /** `pattern.test(s)` */
  predicate Occurs(p: Pattern, s: string)
  {
    match p
    case Literal(t) => ContainsCI(s, t)
    case EventHandler => ContainsHandler(s)
  }

  /** Some pattern of the list occurs in `s`. */
  predicate IsSuspicious(s: string)
  {
    exists k :: 0 <= k < |SuspiciousPatterns| && Occurs(SuspiciousPatterns[k], s)
  }

  /** `[name, email, phone].join(' ')` */
  function JoinInputs(name: string, email: string, phone: string): (all: string)
    ensures |all| == |name| + |email| + |phone| + 2
  {
    name + " " + email + " " + phone
  }

  // ----- a match never spans a space -----

  /** No pattern of the list has a character that is a space once lower-cased. */
  lemma LiteralsHaveNoSpace(k: nat)
    requires k < |SuspiciousPatterns| && SuspiciousPatterns[k].Literal?
    ensures forall m :: 0 <= m < |SuspiciousPatterns[k].text| ==> SuspiciousPatterns[k].text[m] != ' '
  {
  }

  /** A match of the event-handler pattern holds no space. */
  lemma HandlerMatchHasNoSpace(s: string)
    ensures forall m :: 0 <= m < HandlerMatchLength(s) ==> s[m] != ' '
  {
    var n := HandlerMatchLength(s);
    if n > 0 {
      var j := WordRunEnd(s, 2);
      assert n == j + 1;
      forall m | 0 <= m < n ensures s[m] != ' ' {
        if m < 2 {
          assert LowerChar(s[m]) != ' ';
        } else if m < j {
          assert IsWordChar(s[m]);
        }
      }
    }
  }

  /** The word run from `k` is unaffected by what follows a non-word
      character that ends it. */
  lemma {:induction false} WordRunEndExtends(s: string, w: string, k: nat)
    requires k <= |s| && WordRunEnd(s, k) < |s|
    ensures WordRunEnd(s + w, k) == WordRunEnd(s, k)
    decreases |s| - k
  {
    assert (s + w)[k] == s[k];
    if IsWordChar(s[k]) {
      WordRunEndExtends(s, w, k + 1);
    }
  }

  /** A handler match found in `s` is found, the same, in `s + w`. */
  lemma HandlerMatchExtends(s: string, w: string)
    requires HandlerMatchLength(s) > 0
    ensures HandlerMatchLength(s + w) == HandlerMatchLength(s)
  {
    var j := WordRunEnd(s, 2);
    WordRunEndExtends(s, w, 2);
    assert (s + w)[0] == s[0] && (s + w)[1] == s[1] && (s + w)[2] == s[2] && (s + w)[j] == s[j];
  }

  /** A handler match of `s + w` that ends within `s` is a match of `s`. */
  lemma HandlerMatchWithin(s: string, w: string)
    requires 0 < HandlerMatchLength(s + w) <= |s|
    ensures HandlerMatchLength(s) == HandlerMatchLength(s + w)
  {
    var u := s + w;
    var j := WordRunEnd(u, 2);
    assert j < |s|;
    assert u[0] == s[0] && u[1] == s[1] && u[2] == s[2];
    WordRunEndWithin(s, w, 2, j);
    assert u[j] == s[j];
  }

  /** A word run of `s + w` that stops inside `s` is the word run of `s`. */
  lemma {:induction false} WordRunEndWithin(s: string, w: string, k: nat, j: nat)
    requires k <= j < |s| && WordRunEnd(s + w, k) == j
    ensures WordRunEnd(s, k) == j
    decreases |s| - k
  {
    assert (s + w)[k] == s[k];
    if k < j {
      WordRunEndWithin(s, w, k + 1, j);
    }
  }

  // ----- a pattern in the joined string is a pattern in one field -----

  lemma CharOfSuffix(u: string, i: nat, q: nat)
    requires i <= q < |u|
    ensures u[i..][q - i] == u[q]
  {
  }

  /** A case-insensitive literal with no space occurs in `x + " " + y`
      exactly when it occurs in `x` or in `y`. */
  lemma LiteralSplitIff(x: string, y: string, t: string)
    requires forall m :: 0 <= m < |t| ==> t[m] != ' '
    ensures ContainsCI(x + " " + y, t) <==> ContainsCI(x, t) || ContainsCI(y, t)
  {
    if ContainsCI(x + " " + y, t) {
      LiteralInJoinedIsInPart(x, y, t);
    }
    if ContainsCI(x, t) {
      LiteralInLeftIsInJoined(x, y, t);
    }
    if ContainsCI(y, t) {
      var u := x + " " + y;
      var i :| 0 <= i <= |y| && StartsWithCI(y[i..], t);
      assert u[|x| + 1 + i..] == y[i..];
    }
  }

  lemma LiteralInJoinedIsInPart(x: string, y: string, t: string)
    requires forall m :: 0 <= m < |t| ==> t[m] != ' '
    requires ContainsCI(x + " " + y, t)
    ensures ContainsCI(x, t) || ContainsCI(y, t)
  {
    var u := x + " " + y;
    var i :| 0 <= i <= |u| && StartsWithCI(u[i..], t);
    if i > |x| {
      assert u[i..] == y[i - |x| - 1..];
    } else {
      LiteralStopsAtSpace(x, y, t, i);
      assert StartsWithCI(x[i..], t) by {
        forall m | 0 <= m < |t| ensures LowerChar(x[i..][m]) == t[m] {
          assert u[i..][m] == x[i..][m];
        }
      }
    }
  }

  /** A match of a literal without spaces starting in `x` ends before the
      joining space. */
  lemma LiteralStopsAtSpace(x: string, y: string, t: string, i: nat)
    requires forall m :: 0 <= m < |t| ==> t[m] != ' '
    requires i <= |x| && StartsWithCI((x + " " + y)[i..], t)
    ensures i + |t| <= |x|
  {
    var u := x + " " + y;
    if i + |t| > |x| {
      CharOfSuffix(u, i, |x|);
    }
  }

  lemma LiteralInLeftIsInJoined(x: string, y: string, t: string)
    requires ContainsCI(x, t)
    ensures ContainsCI(x + " " + y, t)
  {
    var u := x + " " + y;
    var i :| 0 <= i <= |x| && StartsWithCI(x[i..], t);
    assert StartsWithCI(u[i..], t) by {
      forall m | 0 <= m < |t| ensures LowerChar(u[i..][m]) == t[m] {
        assert u[i..][m] == x[i..][m];
      }
    }
  }

  /** `/on\w+=/i` matches `x + " " + y` exactly when it matches `x` or `y`. */
  lemma HandlerSplitIff(x: string, y: string)
    ensures ContainsHandler(x + " " + y) <==> ContainsHandler(x) || ContainsHandler(y)
  {
    if ContainsHandler(x + " " + y) {
      HandlerInJoinedIsInPart(x, y);
    }
    if ContainsHandler(x) {
      HandlerInLeftIsInJoined(x, y);
    }
    if ContainsHandler(y) {
      HandlerInRightIsInJoined(x, y);
    }
  }

  lemma HandlerInJoinedIsInPart(x: string, y: string)
    requires ContainsHandler(x + " " + y)
    ensures ContainsHandler(x) || ContainsHandler(y)
  {
    var u := x + " " + y;
    var i :| 0 <= i <= |u| && HandlerMatchLength(u[i..]) > 0;
    if i <= |x| {
      HandlerMatchStopsAtSpace(x, y, i);
      assert u[i..] == x[i..] + (" " + y);
      HandlerMatchWithin(x[i..], " " + y);
      assert HandlerMatchLength(x[i..]) > 0;
    } else {
      assert u[i..] == y[i - |x| - 1..];
      assert HandlerMatchLength(y[i - |x| - 1..]) > 0;
    }
  }

  /** A handler match starting in `x` ends before the joining space. */
  lemma HandlerMatchStopsAtSpace(x: string, y: string, i: nat)
    requires i <= |x| && HandlerMatchLength((x + " " + y)[i..]) > 0
    ensures i + HandlerMatchLength((x + " " + y)[i..]) <= |x|
  {
    var v := (x + " " + y)[i..];
    HandlerMatchHasNoSpace(v);
    assert v[|x| - i] == ' ';
  }

  lemma HandlerInLeftIsInJoined(x: string, y: string)
    requires ContainsHandler(x)
    ensures ContainsHandler(x + " " + y)
  {
    var u := x + " " + y;
    var i :| 0 <= i <= |x| && HandlerMatchLength(x[i..]) > 0;
    assert u[i..] == x[i..] + (" " + y);
    HandlerMatchExtends(x[i..], " " + y);
    assert HandlerMatchLength(u[i..]) > 0;
  }

  lemma HandlerInRightIsInJoined(x: string, y: string)
    requires ContainsHandler(y)
    ensures ContainsHandler(x + " " + y)
  {
    var u := x + " " + y;
    var i :| 0 <= i <= |y| && HandlerMatchLength(y[i..]) > 0;
    assert u[|x| + 1 + i..] == y[i..];
    assert HandlerMatchLength(u[|x| + 1 + i..]) > 0;
  }

  /** Each pattern of the list occurs in `x + " " + y` exactly when it
      occurs in one of the two. */
  lemma OccursSplitIff(k: nat, x: string, y: string)
    requires k < |SuspiciousPatterns|
    ensures Occurs(SuspiciousPatterns[k], x + " " + y) <==>
      Occurs(SuspiciousPatterns[k], x) || Occurs(SuspiciousPatterns[k], y)
  {
    match SuspiciousPatterns[k]
    case Literal(t) =>
      LiteralsHaveNoSpace(k);
      LiteralSplitIff(x, y, t);
    case EventHandler =>
      HandlerSplitIff(x, y);
  }

  /** Joining the three values with spaces neither creates nor hides a
      suspicious pattern: the joined string is suspicious exactly when one
      of the fields is. */
  lemma JoinedSuspiciousIff(name: string, email: string, phone: string)
    ensures IsSuspicious(JoinInputs(name, email, phone)) <==>
      IsSuspicious(name) || IsSuspicious(email) || IsSuspicious(phone)
  {
    var ne := name + " " + email;
    assert JoinInputs(name, email, phone) == ne + " " + phone;
    forall k | 0 <= k < |SuspiciousPatterns|
      ensures Occurs(SuspiciousPatterns[k], JoinInputs(name, email, phone)) <==>
        Occurs(SuspiciousPatterns[k], name) || Occurs(SuspiciousPatterns[k], email) ||
        Occurs(SuspiciousPatterns[k], phone)
    {
      OccursSplitIff(k, ne, phone);
      OccursSplitIff(k, name, email);
    }
  }
}
