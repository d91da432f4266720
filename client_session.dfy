/** Session handling in the browser client (frontend/script.js): the form
    check before login and sign-up, the guard that sends visitors without a
    stored email back to the login page, and the text a user shares about
    their badges. */
module ClientSession {
  import opened Common

  /** `!username || !email || !password || !age` fails the form: a request
      is sent only when all four fields are filled in. */
  function FormComplete(username: string, email: string, password: string, age: string): (ok: bool)
    ensures ok <==> username != "" && email != "" && password != "" && age != ""
  {
    !(username == "" || email == "" || password == "" || age == "")
  }

  /** `sub` appears in `s` starting at position `i`. */
  predicate OccursAt(s: string, sub: string, i: nat) {
    i + |sub| <= |s| && s[i..i + |sub|] == sub
  }

  /** `s.includes(sub)`, computed by scanning `s` from the left. */
  function Includes(s: string, sub: string): (b: bool)
    ensures b <==> exists i: nat :: OccursAt(s, sub, i)
    decreases |s|
  {
    if |s| < |sub| then false
    else if OccursAt(s, sub, 0) then true
    else
      IncludesStep(s, sub);
      Includes(s[1..], sub)
  }

  /** Past a mismatch at the front, `sub` occurs in `s` iff it occurs in the
      rest of `s`. */
  lemma IncludesStep(s: string, sub: string)
    requires |s| > 0 && !OccursAt(s, sub, 0)
    ensures (exists i: nat :: OccursAt(s, sub, i)) <==> (exists i: nat :: OccursAt(s[1..], sub, i))
  {
    if i: nat :| OccursAt(s, sub, i) {
      assert i > 0;
      assert s[1..][i - 1..i - 1 + |sub|] == s[i..i + |sub|];
      assert OccursAt(s[1..], sub, i - 1);
    }
    if i: nat :| OccursAt(s[1..], sub, i) {
      assert s[1..][i..i + |sub|] == s[i + 1..i + 1 + |sub|];
      assert OccursAt(s, sub, i + 1);
    }
  }

  /** One differing character rules an occurrence out. */
  lemma MismatchRulesOut(s: string, sub: string, i: nat, k: nat)
    requires k < |sub| && i + k < |s| && s[i + k] != sub[k]
    ensures !OccursAt(s, sub, i)
  {
  }

  /** The pages that require a signed-in user, matched anywhere in the path:
      the path is protected exactly when one of the three page names occurs
      in it at some position. */
  function Protected(path: string): (p: bool)
    ensures p <==> exists i: nat ::
      OccursAt(path, "city.html", i) || OccursAt(path, "main.html", i) || OccursAt(path, "profile.html", i)
  {
    Includes(path, "city.html") || Includes(path, "main.html") || Includes(path, "profile.html")
  }

  /** The page-load guard: a protected page redirects to index.html when
      localStorage holds no email (missing, or empty). A stored non-empty
      email is never redirected, and a path naming none of the three pages
      never is. */
  function RedirectsToLogin(path: string, storedEmail: Option<string>): (go: bool)
    ensures storedEmail.Some? && storedEmail.value != "" ==> !go
    ensures go <==> (storedEmail.None? || storedEmail.value == "") && exists i: nat ::
      OccursAt(path, "city.html", i) || OccursAt(path, "main.html", i) || OccursAt(path, "profile.html", i)
  {
    Protected(path) && (storedEmail.None? || storedEmail.value == "")
  }

  /** The pages themselves: the three protected ones redirect a visitor with
      no stored email, the login page never redirects, and a stored email
      lets the visitor through everywhere. */
  lemma GuardedPages(email: string)
    requires email != ""
    ensures RedirectsToLogin("/city.html", None)
    ensures RedirectsToLogin("/main.html", None)
    ensures RedirectsToLogin("/profile.html", Some(""))
    ensures !RedirectsToLogin("/index.html", None)
    ensures forall path :: !RedirectsToLogin(path, Some(email))
  {
    assert OccursAt("/city.html", "city.html", 1);
    assert OccursAt("/main.html", "main.html", 1);
    assert OccursAt("/profile.html", "profile.html", 1);
    var login := "/index.html";
    forall i: nat
      ensures !OccursAt(login, "city.html", i) && !OccursAt(login, "main.html", i)
    {
      if i <= 2 {
        // Neither name starts with '/', 'i' or 'n'.
        MismatchRulesOut(login, "city.html", i, 0);
        MismatchRulesOut(login, "main.html", i, 0);
      }
    }
  }

  // ----- The share text -----

  function DigitChar(d: nat): char
    requires d < 10
  {
    "0123456789"[d]
  }

  function DigitValue(c: char): nat {
    if '0' <= c <= '9' then (c as int - '0' as int) as nat else 0
  }

  predicate IsDigit(c: char) {
    '0' <= c <= '9'
  }

  /** The decimal form of a count, as a template literal prints it. */
  function NatToString(n: nat): (s: string)
    ensures |s| > 0
    ensures forall i :: 0 <= i < |s| ==> IsDigit(s[i])
    decreases n
  {
    if n < 10 then [DigitChar(n)] else NatToString(n / 10) + [DigitChar(n % 10)]
  }

  /** Reads a run of decimal digits back. */
  function ParseDigits(s: string): nat
    decreases |s|
  {
    if s == [] then 0 else ParseDigits(s[..|s| - 1]) * 10 + DigitValue(s[|s| - 1])
  }

  /** The printed count reads back as the count. */
  lemma {:induction false} NatToStringRoundTrip(n: nat)
    ensures ParseDigits(NatToString(n)) == n
    decreases n
  {
    var s := NatToString(n);
    if n < 10 {
      assert s[..|s| - 1] == [];
    } else {
      NatToStringRoundTrip(n / 10);
      assert s[..|s| - 1] == NatToString(n / 10);
    }
  }

  const ShareOpening := "I've earned "
  /** The four characters the source text holds where a herb emoji was
      meant: the emoji's UTF-8 bytes read as Windows-1252 characters. */
  const Herb := "\U{F0}\U{178}\U{152}\U{BF}"
  const ShareMiddle := " badges on BreathBloom! " + Herb + " My latest badge: "
  const ShareClosing := ". Join me in improving air quality!"

  /** `badges[badges.length - 1] || 'None yet'`: the last badge, unless there
      is none or it is the empty string. */
  function LatestBadge(badges: seq<string>): (s: string)
    ensures s != ""
    ensures |badges| > 0 && badges[|badges| - 1] != "" ==> s == badges[|badges| - 1]
    ensures (badges == [] || badges[|badges| - 1] == "") ==> s == "None yet"
  {
    if |badges| > 0 && badges[|badges| - 1] != "" then badges[|badges| - 1] else "None yet"
  }

  /** The text placed on the share sheet or the clipboard. It ends by
      naming the latest badge, or "None yet", before the closing sentence. */
  function ShareText(badges: seq<string>): (t: string)
    ensures var tail := LatestBadge(badges) + ShareClosing;
      |tail| <= |t| && t[|t| - |tail|..] == tail
  {
    var head := ShareOpening + NatToString(|badges|) + ShareMiddle;
    var tail := LatestBadge(badges) + ShareClosing;
    assert (head + tail)[|head|..] == tail;
    head + tail
  }

  /** Where the parts of a concatenation stand in it. */
  lemma SplitThree(a: string, b: string, c: string, rest: string)
    requires |c| > 0
    ensures var t := a + b + c + rest;
      && t[..|a|] == a
      && t[|a|..|a| + |b|] == b
      && t[|a| + |b|] == c[0]
  {
    var t := a + b + c + rest;
    assert t == a + (b + (c + rest));
  }

  /** The badge count can be read back from the text: after the fixed
      opening comes a run of digits naming exactly the number of badges,
      ended by the space that starts the fixed middle part. */
  lemma ShareTextCount(badges: seq<string>)
    ensures var t := ShareText(badges);
      var k := |NatToString(|badges|)|;
      && t[..|ShareOpening|] == ShareOpening
      && ParseDigits(t[|ShareOpening|..|ShareOpening| + k]) == |badges|
      && !IsDigit(t[|ShareOpening| + k])
  {
    var digits := NatToString(|badges|);
    var tail := LatestBadge(badges) + ShareClosing;
    assert ShareText(badges) == ShareOpening + digits + ShareMiddle + tail;
    assert ShareMiddle[0] == ' ';
    SplitThree(ShareOpening, digits, ShareMiddle, tail);
    NatToStringRoundTrip(|badges|);
  }
}
