/** Two spellings of one e-mail, and the one user both meet. */
module AccountSpelling {
  import opened Wrappers
  import opened Accounts
  import T = Tokens
  import Text

  // ---- When two spellings are one e-mail ---------------------------------------------------

  predicate Blank(s: string, i: int, j: int)
    requires 0 <= i <= j <= |s|
  {
    forall p :: i <= p < j ==> Text.IsWhitespace(s[p])
  }

  predicate NoBlankEnds(s: string) {
    s == [] || (!Text.IsWhitespace(s[0]) && !Text.IsWhitespace(s[|s| - 1]))
  }

  /** `s` is `core` between blanks. */
  ghost predicate Frames(s: string, core: string) {
    NoBlankEnds(core) && exists i, j :: Framed(s, core, i, j)
  }

  predicate Framed(s: string, core: string, i: int, j: int) {
    0 <= i <= j <= |s| && s[i..j] == core && Blank(s, 0, i) && Blank(s, j, |s|)
  }

  lemma {:induction false} TrimStartFrames(s: string)
    ensures Blank(s, 0, |s| - |Text.TrimStart(s)|)
  {
    if s != [] && Text.IsWhitespace(s[0]) {
      TrimStartFrames(s[1..]);
      forall p | 0 < p < |s| - |Text.TrimStart(s)| ensures Text.IsWhitespace(s[p]) {
        assert s[p] == s[1..][p - 1];
      }
    }
  }

  lemma {:induction false} TrimEndFrames(s: string)
    ensures Blank(s, |Text.TrimEnd(s)|, |s|)
  {
    if s != [] && Text.IsWhitespace(s[|s| - 1]) {
      var n := |s| - 1;
      TrimEndFrames(s[..n]);
      forall p | |Text.TrimEnd(s)| <= p < n ensures Text.IsWhitespace(s[p]) {
        assert s[p] == s[..n][p];
      }
    }
  }

  lemma BlankShifts(s: string, i: nat, j: nat)
    requires i <= j <= |s| && Blank(s[i..], j - i, |s| - i)
    ensures Blank(s, j, |s|)
  {
    forall p | j <= p < |s| ensures Text.IsWhitespace(s[p]) {
      assert s[p] == s[i..][p - i];
    }
  }

  lemma TrimFrames(s: string)
    ensures Frames(s, Text.Trim(s))
  {
    var t := Text.TrimStart(s);
    var i := |s| - |t|;
    var j := i + |Text.TrimEnd(t)|;
    Text.TrimmedEnds(s);
    TrimStartFrames(s);
    TrimEndFrames(t);
    assert s[i..] == t && s[i..j] == t[..|Text.TrimEnd(t)|];
    BlankShifts(s, i, j);
    assert Framed(s, Text.Trim(s), i, j);
  }

  lemma FramesOnce(s: string, a: string, b: string)
    requires Frames(s, a) && Frames(s, b)
    ensures a == b
  {
    var i, j :| Framed(s, a, i, j);
    var k, l :| Framed(s, b, k, l);
    assert a != [] ==> s[i] == a[0] && s[j - 1] == a[|a| - 1];
    assert b != [] ==> s[k] == b[0] && s[l - 1] == b[|b| - 1];
  }

  /** Trimming gives the one text without blank ends that the input frames with blanks. */
  lemma TrimMeans(s: string, t: string)
    ensures Text.Trim(s) == t <==> Frames(s, t)
  {
    TrimFrames(s);
    if Frames(s, t) { FramesOnce(s, Text.Trim(s), t); }
  }

  /** The same letter, or an ASCII letter and its other case. */
  predicate SameLetter(c: char, d: char) {
    || c == d
    || ('A' <= c <= 'Z' && 'a' <= d <= 'z' && d as int - c as int == 'a' as int - 'A' as int)
    || ('a' <= c <= 'z' && 'A' <= d <= 'Z' && c as int - d as int == 'a' as int - 'A' as int)
  }

  predicate SameLetters(a: string, b: string) {
    |a| == |b| && forall i :: 0 <= i < |a| ==> SameLetter(a[i], b[i])
  }

  lemma LowerMeans(a: string, b: string)
    ensures Text.AsciiLower(a) == Text.AsciiLower(b) <==> SameLetters(a, b)
  {
    var l, m := Text.AsciiLower(a), Text.AsciiLower(b);
    if |a| == |b| {
      forall i | 0 <= i < |a| ensures l[i] == m[i] <==> SameLetter(a[i], b[i]) {
        LowerCharMeans(a[i], b[i]);
      }
    }
  }

  lemma LowerCharMeans(c: char, d: char)
    ensures Text.LowerChar(c) == Text.LowerChar(d) <==> SameLetter(c, d)
  {
  }

  /** Two spellings normalise to one e-mail exactly if, trimmed, they are equal up to ASCII case. */
  lemma NormalizeMeans(a: string, b: string)
    ensures Normalize(a) == Normalize(b) <==> SameLetters(Text.Trim(a), Text.Trim(b))
  {
    LowerMeans(Text.Trim(a), Text.Trim(b));
  }

  /** And the e-mail is itself such a spelling, without capitals or blank ends. */
  lemma NormalIsPlain(a: string)
    ensures SameLetters(Text.Trim(a), Normalize(a)) && NoBlankEnds(Normalize(a))
    ensures forall i :: 0 <= i < |Normalize(a)| ==> !('A' <= Normalize(a)[i] <= 'Z')
  {
    var t, n := Text.Trim(a), Normalize(a);
    Text.TrimmedEnds(a);
    forall i | 0 <= i < |t| ensures SameLetter(t[i], n[i]) {
      LowerCharMeans(t[i], n[i]);
      assert n[i] == Text.LowerChar(t[i]);
      LowerIsItself(t[i]);
    }
  }

  lemma LowerIsItself(c: char)
    ensures SameLetter(c, Text.LowerChar(c))
  {
  }

  // ---- The one user ---------------------------------------------------------------------------

  /** The lookup for this e-mail runs into what a deletion left. */
  ghost predicate Jammed(s: Store, email: string) {
    email in s.byEmail && Fields(s, s.byEmail[email]) != NO_FIELDS && !Decodes(s, s.byEmail[email])
  }

  /** Whoever holds the e-mail is met under every spelling: a lookup finds them, a creation is refused,
      a local login and a first provider login sign them in with the role asked for, and a bootstrap
      answers false. */
  lemma AnySpellingMeets(s: Store, raw: string, other: string, isAdmin: bool, id: UserId, provider: string,
                         subject: string, secret: T.Secret, token: T.TokenId, now: int)
    requires UsersOk(s) && SameLetters(Text.Trim(raw), Text.Trim(other))
    requires Scan(s, Normalize(raw)).Some? && !Jammed(s, Normalize(raw))
    ensures
      var u := Scan(s, Normalize(raw)).value;
      && u.id in s.listed && u.email == Normalize(raw)
      && Find(s, Normalize(other)).1 == Ok(Some(u))
      && CreateUser(s, other, isAdmin, id, now).1 == Err(EmailTaken)
      && UpsertLocal(s, other, isAdmin, id, now).1 == Ok(u.(isAdmin := isAdmin))
      && ((provider, subject) !in s.byIdentity ==>
            UpsertOauth(s, provider, subject, other, isAdmin, id, now).1 == Ok(u.(isAdmin := isAdmin)))
      && BootstrapAdmin(s, other, secret, id, token, now).1 == Ok(false)
  {
    NormalizeMeans(raw, other);
    FindRefinesScan(s, Normalize(raw));
    FoundIsListed(s, Normalize(raw));
  }

  /** A creation that succeeds makes that user, and the next creation under any spelling is refused. */
  lemma CreatedOnce(s: Store, raw: string, other: string, isAdmin: bool, id: UserId, now: int,
                    again: bool, next: UserId, later: int)
    requires UsersOk(s) && FreshUser(s, id) && CreateUser(s, raw, isAdmin, id, now).1.Ok?
    requires SameLetters(Text.Trim(raw), Text.Trim(other))
    ensures
      var s' := CreateUser(s, raw, isAdmin, id, now).0;
      && Scan(s', Normalize(raw)) == Some(User(id, Normalize(raw), isAdmin, now, 0))
      && CreateUser(s', other, again, next, later) == (s', Err(EmailTaken))
  {
    var email := Normalize(raw);
    var s' := CreateUser(s, raw, isAdmin, id, now).0;
    NormalizeMeans(raw, other);
    FindRefinesScan(s, email);
    WriteNewUserKeeps(s, email, isAdmin, id, now);
    assert HasEmail(s', id, email) && id in s'.listed;
    ScanIsUnique(s', email, id);
    FindRefinesScan(s', email);
    assert Find(s', email) == (s', Ok(Some(User(id, email, isAdmin, now, 0))));
  }

  lemma FailsMalformed(s: Store, email: string)
    ensures Find(s, email).1.Err? ==> Find(s, email).1.error == Malformed
  {
  }

  lemma WritesByFind(s: Store, email: string, isAdmin: bool, id: UserId, now: int)
    requires Find(s, email).1 == Ok(None) ==> email !in Find(s, email).0.byEmail
    ensures
      var found, r := Find(s, email).1, WriteNewUser(s, email, isAdmin, id, now).1;
      && (found.Err? ==> r == Err(found.error))
      && (found.Ok? && found.value.Some? ==> r == Err(EmailTaken))
      && (found == Ok(None) ==> r == Ok(User(id, email, isAdmin, now, 0)))
  {
  }

  /** A creation succeeds exactly if no listed user has the e-mail and the lookup is not jammed. */
  lemma CreatesIffFree(s: Store, raw: string, isAdmin: bool, id: UserId, now: int)
    requires UsersOk(s)
    ensures
      var r := CreateUser(s, raw, isAdmin, id, now).1;
      && (Jammed(s, Normalize(raw)) ==> r == Err(Malformed))
      && (!Jammed(s, Normalize(raw)) && Scan(s, Normalize(raw)).Some? ==> r == Err(EmailTaken))
      && (!Jammed(s, Normalize(raw)) && Scan(s, Normalize(raw)).None? ==>
            r == Ok(User(id, Normalize(raw), isAdmin, now, 0)))
  {
    FindRefinesScan(s, Normalize(raw));
    FailsMalformed(s, Normalize(raw));
    WritesByFind(s, Normalize(raw), isAdmin, id, now);
  }
}
