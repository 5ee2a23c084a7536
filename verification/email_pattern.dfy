/**
 * The e-mail pattern shared by the visitor check-in and host registration forms
 * (src/pages/VisitorCheckIn.tsx, src/components/HostRegistration.tsx):
 * a local part of letters, digits and `._%+-`, an `@`, a domain of letters, digits, `.` and
 * `-`, then a dot and at least two letters, with letters matched in either case.
 * `MatchesPattern` states what the regular expression accepts; `IsValidEmail` decides it by
 * locating the `@` and the last dot, and the two are proved to agree on every string.
 * Both forms' fields are also `<input type="email">`, which the browser checks before the
 * form's handler runs at all: `BrowserAcceptsEmail` is that check.
 */
module EmailPattern {
  import opened Wrappers

  predicate IsLetter(c: char) {
    ('a' <= c <= 'z') || ('A' <= c <= 'Z')
  }

  predicate IsDigit(c: char) {
    '0' <= c <= '9'
  }

  /** `[A-Z0-9._%+-]` under the `i` flag. */
  predicate IsLocalChar(c: char) {
    IsLetter(c) || IsDigit(c) || c == '.' || c == '_' || c == '%' || c == '+' || c == '-'
  }

  /** `[A-Z0-9.-]` under the `i` flag. */
  predicate IsDomainChar(c: char) {
    IsLetter(c) || IsDigit(c) || c == '.' || c == '-'
  }

  predicate AllOf(s: string, p: char -> bool) {
    forall k :: 0 <= k < |s| ==> p(s[k])
  }

  /** Some split `local @ domain . tld` fits the pattern: the regular expression's meaning. */
  predicate MatchesPattern(s: string) {
    exists at, dot :: 0 < at && at + 1 < dot && dot + 2 < |s| + 1
      && s[at] == '@' && s[dot] == '.'
      && AllOf(s[..at], IsLocalChar) && AllOf(s[at + 1..dot], IsDomainChar)
      && AllOf(s[dot + 1..], IsLetter) && |s| - dot - 1 >= 2
  }

  /** The first position holding `c`. */
  function FirstIndexOf(s: string, c: char): (r: Option<nat>)
    ensures r.Some? ==> r.value < |s| && s[r.value] == c && forall k :: 0 <= k < r.value ==> s[k] != c
    ensures r.None? ==> forall k :: 0 <= k < |s| ==> s[k] != c
  {
    if s == [] then None
    else if s[0] == c then Some(0)
    else
      var r := FirstIndexOf(s[1..], c);
      if r.Some? then Some(r.value + 1) else None
  }

  /** The last position holding `c`. */
  function LastIndexOf(s: string, c: char): (r: Option<nat>)
    ensures r.Some? ==> r.value < |s| && s[r.value] == c && forall k :: r.value < k < |s| ==> s[k] != c
    ensures r.None? ==> forall k :: 0 <= k < |s| ==> s[k] != c
  {
    if s == [] then None
    else if s[|s| - 1] == c then Some(|s| - 1)
    else LastIndexOf(s[..|s| - 1], c)
  }

  /** The decision: the first `@` and the last dot must be the split points. */
  predicate IsValidEmail(s: string) {
    var at := FirstIndexOf(s, '@');
    var dot := LastIndexOf(s, '.');
    at.Some? && dot.Some? && 0 < at.value && at.value + 1 < dot.value
    && AllOf(s[..at.value], IsLocalChar) && AllOf(s[at.value + 1..dot.value], IsDomainChar)
    && AllOf(s[dot.value + 1..], IsLetter) && |s| - dot.value - 1 >= 2
  }

  /** A split the pattern admits sits at the first `@` and at the last dot. */
  lemma SplitPointsAreForced(s: string, at: nat, dot: nat)
    requires at < dot < |s| && s[at] == '@' && s[dot] == '.'
    requires AllOf(s[..at], IsLocalChar) && AllOf(s[dot + 1..], IsLetter)
    ensures FirstIndexOf(s, '@') == Some(at)
    ensures LastIndexOf(s, '.') == Some(dot)
  {
    // no `@` is a local character, and no dot is a letter
    forall k | 0 <= k < at ensures s[k] != '@' {
      assert s[..at][k] == s[k];
    }
    forall k | dot < k < |s| ensures s[k] != '.' {
      assert s[dot + 1..][k - dot - 1] == s[k];
    }
  }

  /** The decision accepts exactly the strings the pattern matches. */
  lemma ValidEmailIffMatches(s: string)
    ensures IsValidEmail(s) <==> MatchesPattern(s)
  {
    if IsValidEmail(s) {
      var at := FirstIndexOf(s, '@').value;
      var dot := LastIndexOf(s, '.').value;
      assert s[at] == '@' && s[dot] == '.';
    }
    if MatchesPattern(s) {
      var at, dot :| 0 < at && at + 1 < dot && dot + 2 < |s| + 1
        && s[at] == '@' && s[dot] == '.'
        && AllOf(s[..at], IsLocalChar) && AllOf(s[at + 1..dot], IsDomainChar)
        && AllOf(s[dot + 1..], IsLetter) && |s| - dot - 1 >= 2;
      SplitPointsAreForced(s, at, dot);
    }
  }

  /** Two examples: a plain address is accepted; a one-letter top-level domain is not. */
  lemma PatternExamples()
    ensures IsValidEmail("a@b.co")
    ensures !IsValidEmail("a@b.c")
  {
    assert FirstIndexOf("a@b.co", '@') == Some(1);
    assert LastIndexOf("a@b.co", '.') == Some(3);
    assert LastIndexOf("a@b.c", '.') == Some(3);
  }

  // ---------------------------------------------------------------- the browser's own check

  /** The characters the HTML standard allows before the `@`: letters, digits and ``.!#$%&'*+/=?^_`{|}~-``. */
  predicate IsAtext(c: char) {
    IsLetter(c) || IsDigit(c) || c in ".!#$%&'*+/=?^_`{|}~-"
  }

  predicate IsLetDig(c: char) {
    IsLetter(c) || IsDigit(c)
  }

  predicate IsLdh(c: char) {
    IsLetDig(c) || c == '-'
  }

  /** A domain label: 1 to 63 letters, digits and hyphens, beginning and ending with a letter or digit. */
  predicate IsLabel(l: string) {
    1 <= |l| <= 63 && IsLetDig(l[0]) && IsLetDig(l[|l| - 1]) && AllOf(l, IsLdh)
  }

  /** One or more labels separated by single dots. */
  predicate IsDomain(d: string)
    decreases |d|
  {
    match FirstIndexOf(d, '.')
    case None => IsLabel(d)
    case Some(i) => IsLabel(d[..i]) && IsDomain(d[i + 1..])
  }

  /**
   * The browser's constraint check of an `<input type="email">`, which blocks the submission
   * before the page's handler runs: an empty field passes (the inputs carry no `required`
   * attribute), anything else must be a valid e-mail address in the sense of the WHATWG HTML
   * standard's e-mail input state: one or more of the characters above, an `@`, and a domain.
   * No character the local part may hold is an `@`, so the split is at the first `@`.
   */
  predicate BrowserAcceptsEmail(s: string) {
    s == "" ||
    match FirstIndexOf(s, '@')
    case None => false
    case Some(at) => 0 < at && AllOf(s[..at], IsAtext) && IsDomain(s[at + 1..])
  }

  /**
   * What a domain the browser accepts looks like: not empty, no label is empty (no leading,
   * trailing or doubled dot), and every hyphen sits inside a label.
   */
  lemma {:induction false} DomainLabelsWellFormed(d: string)
    decreases |d|
    ensures IsDomain(d) ==> d != [] && d[0] != '.' && d[|d| - 1] != '.'
    ensures IsDomain(d) ==> forall k :: 0 <= k < |d| - 1 ==> !(d[k] == '.' && d[k + 1] == '.')
    ensures IsDomain(d) ==>
              forall k :: 0 <= k < |d| && d[k] == '-' ==> 0 < k < |d| - 1 && d[k - 1] != '.' && d[k + 1] != '.'
  {
    if IsDomain(d) {
      match FirstIndexOf(d, '.')
      case None =>
        assert IsLetDig(d[0]) && IsLetDig(d[|d| - 1]);
      case Some(i) =>
        var l := d[..i];
        var rest := d[i + 1..];
        DomainLabelsWellFormed(rest);
        assert IsLetDig(l[0]) && IsLetDig(l[|l| - 1]);
        assert d[0] == l[0] && d[i - 1] == l[i - 1] && d[i] == '.';
        assert d[|d| - 1] == rest[|rest| - 1] && d[i + 1] == rest[0];
        forall k | 0 <= k < |d| - 1 ensures !(d[k] == '.' && d[k + 1] == '.') {
          if k > i {
            assert d[k] == rest[k - i - 1] && d[k + 1] == rest[k - i];
          }
        }
        forall k | 0 <= k < |d| && d[k] == '-' ensures 0 < k < |d| - 1 && d[k - 1] != '.' && d[k + 1] != '.' {
          if k < i {
            assert d[k] == l[k];
            assert k != 0 && k != i - 1;
            assert d[k - 1] == l[k - 1] && d[k + 1] == l[k + 1];
          } else if k > i {
            assert d[k] == rest[k - i - 1];
            assert d[k - 1] == rest[k - i - 2] && d[k + 1] == rest[k - i];
          }
        }
    }
  }

  /** The pattern lets through an empty label, which the browser refuses. */
  lemma BrowserRefusesEmptyLabel()
    ensures IsValidEmail("a@b..co") && !BrowserAcceptsEmail("a@b..co")
  {
    assert FirstIndexOf("a@b..co", '@') == Some(1) && LastIndexOf("a@b..co", '.') == Some(4);
    assert "a@b..co"[2..] == "b..co";
    assert "b..co"[1] == '.' && "b..co"[2] == '.';
    DomainLabelsWellFormed("b..co");
  }

  /** The pattern lets through a label starting with a hyphen, which the browser refuses. */
  lemma BrowserRefusesLeadingHyphen()
    ensures IsValidEmail("a@-b.co") && !BrowserAcceptsEmail("a@-b.co")
  {
    assert FirstIndexOf("a@-b.co", '@') == Some(1) && LastIndexOf("a@-b.co", '.') == Some(4);
    assert "a@-b.co"[2..] == "-b.co";
    assert "-b.co"[0] == '-';
    DomainLabelsWellFormed("-b.co");
  }

  /** The pattern lets through a label ending with a hyphen, which the browser refuses. */
  lemma BrowserRefusesTrailingHyphen()
    ensures IsValidEmail("a@b-.co") && !BrowserAcceptsEmail("a@b-.co")
  {
    assert FirstIndexOf("a@b-.co", '@') == Some(1) && LastIndexOf("a@b-.co", '.') == Some(4);
    assert "a@b-.co"[2..] == "b-.co";
    assert "b-.co"[1] == '-' && "b-.co"[2] == '.';
    DomainLabelsWellFormed("b-.co");
  }

  /** A plain address passes both checks. */
  lemma BrowserAcceptsPlainAddress()
    ensures IsValidEmail("a@b.co") && BrowserAcceptsEmail("a@b.co")
  {
    PatternExamples();
    assert FirstIndexOf("a@b.co", '@') == Some(1);
    assert "a@b.co"[..1] == "a" && "a@b.co"[2..] == "b.co";
    assert FirstIndexOf("b.co", '.') == Some(1);
    assert "b.co"[..1] == "b" && "b.co"[2..] == "co";
    assert FirstIndexOf("co", '.') == None;
  }
}
