/**
  The slug of a personal organization: personalOrgSlug and nameFromEmail of internal/auth/auth.go
  against the rule of internal/auth/orgslug.go.
 */
module Slug {
  import opened Common
  import Digits

  const MAX_SLUG: nat := 30

  predicate LetterOrDigit(c: char) {
    'a' <= c <= 'z' || '0' <= c <= '9'
  }

  predicate SlugChar(c: char) {
    LetterOrDigit(c) || c == '-'
  }

  predicate SlugText(s: string) {
    forall i :: 0 <= i < |s| ==> SlugChar(s[i])
  }

  /** The handle rule: 3 to 30 letters, digits or hyphens, a letter or digit at either end. */
  predicate ValidSlug(s: string) {
    && 3 <= |s| <= MAX_SLUG
    && SlugText(s)
    && LetterOrDigit(s[0]) && LetterOrDigit(s[|s| - 1])
  }

  // ----- the parts of the slug -----

  function FirstAt(s: string): (i: nat)
    ensures i <= |s|
    ensures i < |s| ==> s[i] == '@'
    ensures forall j :: 0 <= j < i ==> s[j] != '@'
  {
    if s == "" || s[0] == '@' then 0 else FirstAt(s[1..]) + 1
  }

  /** What stands before the first @, unless nothing does. */
  function NameFromEmail(email: string): (name: string)
    ensures name <= email && (email != "" ==> name != "")
    ensures name != email ==> '@' !in name && name + "@" <= email
    ensures name == email ==> email == "" || email[0] == '@' || '@' !in email
  {
    if 0 < FirstAt(email) < |email| then email[..FirstAt(email)] else email
  }

  /** Every run of other characters becomes one hyphen. */
  function Collapsed(s: string): (r: string)
    ensures SlugText(r)
  {
    if s == "" then ""
    else
      var r, c := Collapsed(s[..|s| - 1]), s[|s| - 1];
      if LetterOrDigit(c) then r + [c] else if r != "" && r[|r| - 1] == '-' then r else r + "-"
  }

  function TrimLeft(s: string): string {
    if s != "" && s[0] == '-' then TrimLeft(s[1..]) else s
  }

  function TrimRight(s: string): string {
    if s != "" && s[|s| - 1] == '-' then TrimRight(s[..|s| - 1]) else s
  }

  /** What is left of 30 characters for the stem, once the id and its hyphen have theirs, and at least one. */
  function Room(userId: string): (n: nat)
    ensures n >= 1 && (n > 1 ==> n + 1 + |userId| == 30) && (|userId| <= 28 ==> n + 1 + |userId| == 30)
  {
    if MAX_SLUG - 1 - |userId| < 1 then 1 else MAX_SLUG - 1 - |userId|
  }

  function Clipped(s: string, n: nat): (c: string)
    ensures c <= s && |c| <= n && (c != s ==> |c| == n)
  {
    if |s| > n then s[..n] else s
  }

  /** The part before the user id, from a local part already in lower case. */
  function Stem(local: string, room: nat): string {
    var stem := TrimRight(TrimLeft(Clipped(Collapsed(local), room)));
    if stem == "" then Clipped("org", room) else stem
  }

  function PersonalSlug(local: string, userId: string): string {
    Stem(local, Room(userId)) + "-" + userId
  }

  // ----- what the parts keep -----

  function Kept(s: string): string {
    if s == "" then "" else Kept(s[..|s| - 1]) + if LetterOrDigit(s[|s| - 1]) then [s[|s| - 1]] else ""
  }

  predicate NoDoubleHyphen(s: string) {
    forall i :: 0 <= i < |s| - 1 ==> s[i] != '-' || s[i + 1] != '-'
  }

  /** Collapsing keeps the letters and digits, in order, and never leaves two hyphens in a row. */
  lemma {:induction false} CollapsingKeepsLetters(s: string)
    ensures Kept(Collapsed(s)) == Kept(s) && NoDoubleHyphen(Collapsed(s))
  {
    if s != "" {
      var before, r, c := s[..|s| - 1], Collapsed(s[..|s| - 1]), s[|s| - 1];
      CollapsingKeepsLetters(before);
      assert (r + [c])[..|r + [c]| - 1] == r && (r + "-")[..|r + "-"| - 1] == r;
    }
  }

  /** A text collapses piece by piece: its beginnings collapse to beginnings, each of which ends in a hyphen exactly when
      what it stands for ends in another character than a letter or digit. */
  lemma {:induction false} CollapsingFollowsTheText(s: string, i: nat)
    requires 0 < i <= |s|
    ensures Collapsed(s[..i]) <= Collapsed(s) && Collapsed(s[..i]) != ""
    ensures var c := Collapsed(s[..i]); if LetterOrDigit(s[i - 1]) then c[|c| - 1] == s[i - 1] else c[|c| - 1] == '-'
  {
    if i < |s| {
      CollapsingFollowsTheText(s[..|s| - 1], i);
      assert s[..|s| - 1][..i] == s[..i];
    } else {
      assert s[..i] == s;
    }
  }

  lemma {:induction false} TrimLeftKeeps(s: string)
    requires SlugText(s)
    ensures SlugText(TrimLeft(s)) && |TrimLeft(s)| <= |s|
    ensures TrimLeft(s) != "" ==> LetterOrDigit(TrimLeft(s)[0])
  {
    if s != "" && s[0] == '-' {
      TrimLeftKeeps(s[1..]);
    }
  }

  lemma {:induction false} TrimRightKeeps(s: string)
    requires SlugText(s)
    ensures SlugText(TrimRight(s)) && |TrimRight(s)| <= |s| && TrimRight(s) == s[..|TrimRight(s)|]
    ensures TrimRight(s) != "" ==> LetterOrDigit(TrimRight(s)[|TrimRight(s)| - 1])
  {
    if s != "" && s[|s| - 1] == '-' {
      TrimRightKeeps(s[..|s| - 1]);
    }
  }

  predicate Hyphens(s: string) {
    forall i :: 0 <= i < |s| ==> s[i] == '-'
  }

  lemma {:induction false} TrimLeftDropsHyphens(s: string) returns (n: nat)
    ensures n <= |s| && Hyphens(s[..n]) && s[n..] == TrimLeft(s)
  {
    n := 0;
    if s != "" && s[0] == '-' {
      n := TrimLeftDropsHyphens(s[1..]);
      n := n + 1;
      assert s[..n][1..] == s[1..][..n - 1];
      forall i | 0 <= i < n ensures s[..n][i] == '-' {
        assert i > 0 ==> s[..n][i] == s[1..][..n - 1][i - 1];
      }
    }
  }

  lemma {:induction false} TrimRightDropsHyphens(s: string) returns (n: nat)
    ensures n <= |s| && s[..n] == TrimRight(s) && Hyphens(s[n..])
  {
    n := |s|;
    if s != "" && s[|s| - 1] == '-' {
      var rest := s[..|s| - 1];
      n := TrimRightDropsHyphens(rest);
      assert s[..n] == rest[..n];
      forall i | 0 <= i < |s| - n ensures s[n..][i] == '-' {
        assert i < |s| - n - 1 ==> s[n..][i] == rest[n..][i];
      }
    }
  }

  /** The stem is what the cut leaves of the collapsed name, without the hyphens at either end: nothing else is lost, and
      "org" stands in only where nothing but hyphens is left. */
  lemma StemSpelledOut(local: string, room: nat) returns (before: string, after: string)
    ensures Hyphens(before) && Hyphens(after)
    ensures if Hyphens(Clipped(Collapsed(local), room)) then Stem(local, room) == Clipped("org", room)
            else before + Stem(local, room) + after == Clipped(Collapsed(local), room)
  {
    var cut := Clipped(Collapsed(local), room);
    var m := TrimLeftDropsHyphens(cut);
    var left := TrimLeft(cut);
    var n := TrimRightDropsHyphens(left);
    TrimLeftKeeps(cut);
    before, after := cut[..m], left[n..];
    assert cut == before + left && left == TrimRight(left) + after;
    if TrimRight(left) == "" {
      assert left == after;
      assert left == "";
      assert cut == before;
    } else {
      assert !Hyphens(cut) by {
        assert cut[m] == left[0] && LetterOrDigit(left[0]);
      }
    }
  }

  lemma StemIsSound(local: string, room: nat)
    requires room >= 1
    ensures 1 <= |Stem(local, room)| <= room && SlugText(Stem(local, room))
    ensures LetterOrDigit(Stem(local, room)[0]) && LetterOrDigit(Stem(local, room)[|Stem(local, room)| - 1])
  {
    var clipped := Clipped(Collapsed(local), room);
    TrimLeftKeeps(clipped);
    TrimRightKeeps(TrimLeft(clipped));
  }

  /** A user id as text: slug characters that end in a letter or digit. */
  predicate IdText(userId: string) {
    userId != "" && SlugText(userId) && LetterOrDigit(userId[|userId| - 1])
  }

  lemma SlugTextConcat(a: string, b: string)
    requires SlugText(a) && SlugText(b)
    ensures SlugText(a + b)
  {
  }

  lemma EndsOfSlug(stem: string, userId: string)
    requires stem != "" && userId != ""
    ensures var slug := stem + "-" + userId;
      |slug| == |stem| + 1 + |userId| && slug[0] == stem[0] && slug[|slug| - 1] == userId[|userId| - 1]
  {
  }

  /** For ids of that form the slug meets the rule exactly when the id leaves room for one character. */
  lemma SlugIsValidIff(local: string, userId: string)
    requires IdText(userId)
    ensures ValidSlug(PersonalSlug(local, userId)) <==> |userId| <= MAX_SLUG - 2
  {
    var stem := Stem(local, Room(userId));
    StemIsSound(local, Room(userId));
    SlugTextConcat(stem, "-");
    SlugTextConcat(stem + "-", userId);
    EndsOfSlug(stem, userId);
  }

  predicate Int64(n: int) {
    -0x8000_0000_0000_0000 <= n < 0x8000_0000_0000_0000
  }

  lemma DecimalIsIdText(n: int)
    requires Int64(n)
    ensures IdText(Digits.Decimal(n)) && |Digits.Decimal(n)| <= 20
  {
    var magnitude: nat := if n < 0 then -n else n;
    Digits.NineteenDigits();
    Digits.NaturalIsShort(magnitude, 19);
    var text := Digits.Natural(magnitude);
    assert text[|text| - 1] == Digits.Decimal(n)[|Digits.Decimal(n)| - 1];
  }

  /** Every e-mail and every 64-bit user id give a slug that meets the rule. */
  lemma PersonalSlugIsValid(local: string, n: int)
    requires Int64(n)
    ensures ValidSlug(PersonalSlug(local, Digits.Decimal(n)))
  {
    DecimalIsIdText(n);
    SlugIsValidIff(local, Digits.Decimal(n));
  }

  // ----- distinct users get distinct slugs -----

  lemma SlugsAlign(a: string, s: string, b: string, t: string)
    requires a + "-" + s == b + "-" + t && |s| <= |t| && a != ""
    ensures |s| < |t| ==> t[|t| - |s| - 1] == '-'
    ensures |t| == |s| + 1 ==> a[|a| - 1] == '-'
    ensures t[|t| - |s|..] == s
  {
    var slug := a + "-" + s;
    var other := b + "-" + t;
    assert slug[|slug| - |s|..] == s && other[|other| - |s|..] == t[|t| - |s|..];
    if |s| < |t| {
      assert slug[|slug| - |s| - 1] == '-';
      assert other[|other| - |s| - 1] == t[|t| - |s| - 1];
      if |t| == |s| + 1 {
        assert slug[|slug| - |s| - 2] == a[|a| - 1] && other[|other| - |s| - 2] == '-';
      }
    }
  }

  /** The only hyphen of a number is a minus sign. */
  lemma DecimalHyphen(n: int)
    ensures forall i :: 0 < i < |Digits.Decimal(n)| ==> Digits.Decimal(n)[i] != '-'
  {
    var text := Digits.Natural(if n < 0 then -n else n);
    assert Digits.Decimal(n) == (if n < 0 then "-" else "") + text;
    Digits.DecimalSign(n);
  }

  lemma EqualSlugsEqualIds(a: string, m: int, b: string, n: int)
    requires PersonalSlug(a, Digits.Decimal(m)) == PersonalSlug(b, Digits.Decimal(n))
    requires |Digits.Decimal(m)| <= |Digits.Decimal(n)|
    ensures m == n
  {
    var s, t := Digits.Decimal(m), Digits.Decimal(n);
    var p, q := Stem(a, Room(s)), Stem(b, Room(t));
    StemIsSound(a, Room(s));
    StemIsSound(b, Room(t));
    SlugsAlign(p, s, q, t);
    DecimalHyphen(n);
    assert s == t;
    Digits.DecimalIsInjective(m, n);
  }

  /** Slugs are as distinct as the user ids, whatever the e-mails are. */
  lemma DistinctUsersGetDistinctSlugs(a: string, m: int, b: string, n: int)
    requires m != n
    ensures PersonalSlug(a, Digits.Decimal(m)) != PersonalSlug(b, Digits.Decimal(n))
  {
    if PersonalSlug(a, Digits.Decimal(m)) == PersonalSlug(b, Digits.Decimal(n)) {
      if |Digits.Decimal(m)| <= |Digits.Decimal(n)| {
        EqualSlugsEqualIds(a, m, b, n);
      } else {
        EqualSlugsEqualIds(b, n, a, m);
      }
    }
  }

  // ----- the builder -----

  function Lowered(s: string, lower: char -> char): (r: string)
    ensures |r| == |s| && forall i :: 0 <= i < |s| ==> r[i] == lower(s[i])
  {
    seq(|s|, i requires 0 <= i < |s| => lower(s[i]))
  }

  /** lower is the lower-case mapping of characters. */
  method PersonalOrgSlug(email: string, userId: string, lower: char -> char) returns (slug: string)
    ensures slug == PersonalSlug(Lowered(NameFromEmail(email), lower), userId)
    ensures slug == Stem(Lowered(NameFromEmail(email), lower), Room(userId)) + "-" + userId
  {
    var local := Lowered(NameFromEmail(email), lower);
    var normalized := "";
    var lastHyphen := false;
    for i := 0 to |local|
      invariant normalized == Collapsed(local[..i])
      invariant lastHyphen <==> normalized != "" && normalized[|normalized| - 1] == '-'
    {
      assert local[..i + 1][..i] == local[..i];
      var r := local[i];
      if LetterOrDigit(r) {
        normalized := normalized + [r];
        lastHyphen := false;
      } else if !lastHyphen {
        normalized := normalized + "-";
        lastHyphen := true;
      }
    }
    assert local[..|local|] == local;
    var maxLocal := MAX_SLUG - 1 - |userId|;
    if maxLocal < 1 {
      maxLocal := 1;
    }
    if |normalized| > maxLocal {
      normalized := normalized[..maxLocal];
    }
    normalized := TrimRight(TrimLeft(normalized));
    if normalized == "" {
      normalized := "org";
      if |normalized| > maxLocal {
        normalized := normalized[..maxLocal];
      }
    }
    slug := normalized + "-" + userId;
  }
}
