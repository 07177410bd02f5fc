/**
 * Local accounts: phone normalisation and validation, the PBKDF2 password
 * encoding `pbkdf2_sha256$<iterations>$<salt hex>$<digest hex>`, and the
 * user file `auth_users.json`, to which registration appends one user per
 * phone and against which login checks a password. The key derivation
 * function and the random salt are parameters.
 */
module Auth {
  import opened Wrappers
  import opened Text
  import opened Seqs

  newtype byte = x: int | 0 <= x < 256

  /** PBKDF2-HMAC-SHA256 of a password, a salt and an iteration count. */
  type Kdf = (string, seq<byte>, int) -> seq<byte>

  const ALGO := "pbkdf2_sha256"
  const ITERATIONS := 200000
  const ITERATIONS_TEXT := "200000"
  const DEFAULT_DEVELOPER := "老王养基"
  const MIN_PASSWORD := 6

  // ---------- phones and passwords ----------

  function IsDigitChar(): char -> bool {
    c => IsDigit(c)
  }

  /** `_normalize_phone`: the digits of the stripped input, in order. */
  function NormalizePhone(phone: string): (r: string)
    ensures AllDigits(r)
  {
    FilterSatisfies(Strip(phone), IsDigitChar());
    Filter(Strip(phone), IsDigitChar())
  }

  /** `_validate_phone`: `1[3-9]` followed by nine digits, and nothing else. */
  predicate ValidPhone(p: string) {
    |p| == 11 && p[0] == '1' && '3' <= p[1] <= '9' && AllDigits(p[2..])
  }

  /** `_validate_password`: at least six characters. */
  predicate ValidPassword(password: string) {
    |password| >= MIN_PASSWORD
  }

  /** `_to_user_id`. */
  function UserId(phone: string): string {
    "u_" + phone
  }

  /**
   * A normalised phone is all digits and normalises to itself; every digit
   * of the stripped input survives, in order, and nothing else does.
   */
  lemma NormalizePhoneSpec(phone: string)
    ensures NormalizePhone(NormalizePhone(phone)) == NormalizePhone(phone)
    ensures forall c :: c in NormalizePhone(phone) <==> c in Strip(phone) && IsDigit(c)
    ensures ValidPhone(NormalizePhone(phone)) ==> |NormalizePhone(phone)| == 11
  {
    var n := NormalizePhone(phone);
    assert n == [] || (!IsSpace(n[0]) && !IsSpace(n[|n| - 1]));
    StripNoop(n);
    FilterAll(n, IsDigitChar());
    forall c
      ensures c in n <==> c in Strip(phone) && IsDigit(c)
    {
      FilterMember(Strip(phone), IsDigitChar(), c);
    }
  }

  /** A valid phone is all digits, so it is its own normal form. */
  lemma ValidPhoneNormal(p: string)
    requires ValidPhone(p)
    ensures AllDigits(p) && NormalizePhone(p) == p
  {
    assert p == p[..2] + p[2..];
    assert forall k :: 0 <= k < |p| ==> IsDigit(p[k]) by {
      forall k | 0 <= k < |p|
        ensures IsDigit(p[k])
      {
        if k >= 2 {
          assert p[k] == p[2..][k - 2];
        }
      }
    }
    assert !IsSpace(p[0]) && !IsSpace(p[|p| - 1]);
    StripNoop(p);
    FilterAll(p, IsDigitChar());
  }

  /** Separators and surrounding spaces are dropped: " 138-0013-8000 " is the valid phone 13800138000. */
  lemma NormalizeExample()
    ensures NormalizePhone(" 138-0013-8000 ") == "13800138000"
    ensures ValidPhone("13800138000") && !ValidPhone("12800138000") && !ValidPhone("1380013800")
  {
    StripExample();
    DigitsExample();
    assert AllDigits("13800138000"[2..]);
  }

  lemma StripExample()
    ensures Strip(" 138-0013-8000 ") == "138-0013-8000"
  {
    var s := " 138-0013-8000 ";
    var t := "138-0013-8000";
    assert s == " " + (t + " ");
    assert TrimStart(t + " ") == t + " ";
    assert TrimStart(s) == t + " ";
    assert (t + " ")[..|t + " "| - 1] == t;
    assert TrimEnd(t) == t;
  }

  /** Digit groups joined by dashes filter to the groups run together. */
  lemma DigitGroups(a: string, b: string, c: string)
    requires AllDigits(a) && AllDigits(b) && AllDigits(c)
    ensures Filter(a + "-" + b + "-" + c, IsDigitChar()) == a + b + c
  {
    var d := IsDigitChar();
    DigitsKept(a);
    DigitsKept(b);
    DigitsKept(c);
    FilterNone("-", d);
    var s1 := a + "-";
    FilterConcat(a, "-", d);
    assert Filter(s1, d) == a by { assert a + [] == a; }
    var s2 := s1 + b;
    FilterConcat(s1, b, d);
    assert Filter(s2, d) == a + b;
    var s3 := s2 + "-";
    FilterConcat(s2, "-", d);
    assert Filter(s3, d) == a + b by { assert (a + b) + [] == a + b; }
    FilterConcat(s3, c, d);
    assert Filter(s3 + c, d) == a + b + c;
  }

  /** A string of digits is kept whole. */
  lemma DigitsKept(a: string)
    requires AllDigits(a)
    ensures Filter(a, IsDigitChar()) == a
  {
    FilterAll(a, IsDigitChar());
  }

  lemma DigitsExample()
    ensures Filter("138-0013-8000", IsDigitChar()) == "13800138000"
  {
    DigitGroups("138", "0013", "8000");
    assert "138-0013-8000" == "138" + "-" + "0013" + "-" + "8000";
    assert "138" + "0013" + "8000" == "13800138000";
  }

  // ---------- hex ----------

  /** The lower-case hex digit of a value below 16. */
  function HexDigit(n: int): (c: char)
    requires 0 <= n < 16
    ensures HexValue(c) == Some(n)
    ensures c != '$'
  {
    if n < 10 then ('0' as int + n) as char else ('a' as int + n - 10) as char
  }

  function HexByte(b: byte): (r: string)
    ensures |r| == 2
  {
    [HexDigit(b as int / 16), HexDigit(b as int % 16)]
  }

  /** `bytes.hex()`: two lower-case hex digits per byte. */
  function Hex(bs: seq<byte>): (r: string)
    ensures |r| == 2 * |bs|
  {
    if bs == [] then "" else HexByte(bs[0]) + Hex(bs[1..])
  }

  /** The value of one hex digit, in either case. */
  function HexValue(c: char): Option<int> {
    if '0' <= c <= '9' then Some(c as int - '0' as int)
    else if 'a' <= c <= 'f' then Some(c as int - 'a' as int + 10)
    else if 'A' <= c <= 'F' then Some(c as int - 'A' as int + 10)
    else None
  }

  /** `bytes.fromhex`: pairs of hex digits; an odd length or a non-hex character fails. */
  function FromHex(s: string): (r: Option<seq<byte>>)
    ensures r.Some? ==> 2 * |r.value| == |s|
    decreases |s|
  {
    if s == [] then Some([])
    else if |s| == 1 then None
    else
      var hi, lo := HexValue(s[0]), HexValue(s[1]);
      if hi.None? || lo.None? || !(0 <= hi.value < 16 && 0 <= lo.value < 16) then None
      else
        var rest := FromHex(s[2..]);
        if rest.None? then None else Some([(hi.value * 16 + lo.value) as byte] + rest.value)
  }

  /** Hex decoding undoes hex encoding. */
  lemma {:induction false} FromHexHex(bs: seq<byte>)
    ensures FromHex(Hex(bs)) == Some(bs)
  {
    if bs != [] {
      var h := Hex(bs);
      assert h[2..] == Hex(bs[1..]);
      FromHexHex(bs[1..]);
      var b := bs[0] as int;
      assert HexValue(h[0]) == Some(b / 16);
      assert HexValue(h[1]) == Some(b % 16);
      assert [bs[0]] + bs[1..] == bs;
    }
  }

  lemma HexNoSeparator(bs: seq<byte>)
    ensures '$' !in Hex(bs)
  {
    if bs != [] {
      HexNoSeparator(bs[1..]);
    }
  }

  // ---------- password encoding ----------

  /** `a + "$" + b`. */
  function Dollar(a: string, b: string): string {
    a + ['$'] + b
  }

  /** `_password_hash` for a given salt. */
  function PasswordHash(password: string, salt: seq<byte>, kdf: Kdf): string {
    Dollar(ALGO, Dollar(ITERATIONS_TEXT, Dollar(Hex(salt), Hex(kdf(password, salt, ITERATIONS)))))
  }

  /**
   * `_password_verify`. Any failure to read the encoding gives false; an
   * iteration count below one makes the key derivation itself raise,
   * outside the `try`, which is the `Err` case.
   */
  function PasswordVerify(password: string, encoded: string, kdf: Kdf): (r: Result<bool>)
    ensures r == Ok(true) ==>
              var parts := SplitMax(encoded, '$', 3);
              |parts| == 4 && parts[0] == ALGO && ParseInt(parts[1]).Some? && ParseInt(parts[1]).value >= 1
  {
    var parts := SplitMax(encoded, '$', 3);
    if |parts| != 4 || parts[0] != ALGO then Ok(false)
    else
      var iterations := ParseInt(parts[1]);
      var salt := FromHex(parts[2]);
      var expected := FromHex(parts[3]);
      if iterations.None? || salt.None? || expected.None? then Ok(false)
      else if iterations.value < 1 then Err("iteration value must be greater than 0")
      else Ok(kdf(password, salt.value, iterations.value) == expected.value)
  }

  lemma IterationsText()
    ensures ParseInt(ITERATIONS_TEXT) == Some(ITERATIONS)
  {
    var t := ITERATIONS_TEXT;
    StripNoop(t);
    assert AllDigits(t);
    assert "2"[..0] == "";
    assert DigitsValue("2") == 2;
    assert "20"[..1] == "2";
    assert DigitsValue("20") == 20;
    assert "200"[..2] == "20";
    assert DigitsValue("200") == 200;
    assert "2000"[..3] == "200";
    assert DigitsValue("2000") == 2000;
    assert "20000"[..4] == "2000";
    assert DigitsValue("20000") == 20000;
    assert t[..5] == "20000";
  }

  /** The encoding splits back into its four parts. */
  lemma EncodingParts(password: string, salt: seq<byte>, kdf: Kdf)
    ensures SplitMax(PasswordHash(password, salt, kdf), '$', 3) ==
            [ALGO, ITERATIONS_TEXT, Hex(salt), Hex(kdf(password, salt, ITERATIONS))]
  {
    var d := Hex(kdf(password, salt, ITERATIONS));
    var h := Hex(salt);
    HexNoSeparator(salt);
    HexNoSeparator(kdf(password, salt, ITERATIONS));
    var tail := Dollar(h, d);
    SplitMaxFirst(h, '$', d, 1);
    assert SplitMax(tail, '$', 1) == [h, d];
    var mid := Dollar(ITERATIONS_TEXT, tail);
    assert '$' !in ITERATIONS_TEXT;
    SplitMaxFirst(ITERATIONS_TEXT, '$', tail, 2);
    assert SplitMax(mid, '$', 2) == [ITERATIONS_TEXT, h, d];
    assert '$' !in ALGO;
    SplitMaxFirst(ALGO, '$', mid, 3);
  }

  /**
   * An encoding reads back: a password verifies against it exactly when
   * its derived key equals the stored one, so the password that was
   * encoded always verifies.
   */
  lemma PasswordRoundTrip(password: string, other: string, salt: seq<byte>, kdf: Kdf)
    ensures PasswordVerify(other, PasswordHash(password, salt, kdf), kdf) ==
            Ok(kdf(other, salt, ITERATIONS) == kdf(password, salt, ITERATIONS))
    ensures PasswordVerify(password, PasswordHash(password, salt, kdf), kdf) == Ok(true)
  {
    var d := kdf(password, salt, ITERATIONS);
    EncodingParts(password, salt, kdf);
    IterationsText();
    FromHexHex(salt);
    FromHexHex(d);
  }

  /** An encoding without a `$` (a bare digest, or nothing) never verifies. */
  lemma PasswordVerifyNoParts(password: string, encoded: string, kdf: Kdf)
    requires '$' !in encoded
    ensures PasswordVerify(password, encoded, kdf) == Ok(false)
  {
    SplitNoSepMax(encoded, 3);
  }

  /** An encoding naming another algorithm never verifies. */
  lemma PasswordVerifyOtherAlgo(password: string, algo: string, rest: string, kdf: Kdf)
    requires '$' !in algo && algo != ALGO
    ensures PasswordVerify(password, Dollar(algo, rest), kdf) == Ok(false)
  {
    SplitMaxFirst(algo, '$', rest, 3);
  }

  lemma {:induction false} SplitNoSepMax(a: string, n: nat)
    requires '$' !in a
    ensures SplitMax(a, '$', n) == [a]
  {
    if n > 0 && a != [] {
      SplitNoSepMax(a[1..], n);
      assert [a[0]] + a[1..] == a;
    }
  }

  // ---------- users ----------

  /** A record of `auth_users.json`; a missing or empty `user_id` is "". */
  datatype User = User(phone: string, userId: string, passwordHash: string, developer: string,
                       createdAt: string, updatedAt: string)

  /** The outcome messages, abstracted from their texts. */
  datatype AuthMsg = BadPhone | ShortPassword | CloudNotConfigured | Registered | AlreadyRegistered
                   | UnknownAccount | WrongPassword | LoggedIn

  /** The `(ok, message, user_id)` triple. */
  datatype Outcome = Outcome(ok: bool, msg: AuthMsg, userId: Option<string>)

  /** `str(user.get("user_id") or _to_user_id(phone))`. */
  function IdOf(u: User, phone: string): string {
    if u.userId != "" then u.userId else UserId(phone)
  }

  /** `next((x for x in items if x["phone"] == phone), None)`: the first user with that phone. */
  function FindUser(users: seq<User>, phone: string): (r: Option<User>)
    ensures r.Some? ==> r.value in users && r.value.phone == phone
    ensures r.None? ==> forall u :: u in users ==> u.phone != phone
  {
    if users == [] then None
    else if users[0].phone == phone then Some(users[0])
    else FindUser(users[1..], phone)
  }

  /** No two users share a phone. */
  predicate PhonesUnique(users: seq<User>) {
    forall i, j :: 0 <= i < j < |users| ==> users[i].phone != users[j].phone
  }

  /** The input checks both entry points make before touching the file (the cloud branch is not modelled). */
  function Precheck(phone: string, password: string, strictCloud: bool): Option<Outcome> {
    var p := NormalizePhone(phone);
    if !ValidPhone(p) then Some(Outcome(false, BadPhone, None))
    else if !ValidPassword(password) then Some(Outcome(false, ShortPassword, None))
    else if strictCloud then Some(Outcome(false, CloudNotConfigured, None))
    else None
  }

  /** The user `register_user` appends. */
  function NewUser(phone: string, password: string, salt: seq<byte>, kdf: Kdf, now: string): User {
    User(phone, UserId(phone), PasswordHash(password, salt, kdf), DEFAULT_DEVELOPER, now, now)
  }

  /** `login_user` (local branch): the first user with the phone, and the password check. */
  function LoginOf(users: seq<User>, phone: string, password: string, strictCloud: bool, kdf: Kdf): Result<Outcome> {
    var pre := Precheck(phone, password, strictCloud);
    if pre.Some? then Ok(pre.value)
    else
      var p := NormalizePhone(phone);
      var u := FindUser(users, p);
      if u.None? then Ok(Outcome(false, UnknownAccount, None))
      else
        var v := PasswordVerify(password, u.value.passwordHash, kdf);
        if v.Err? then Err(v.error)
        else if !v.value then Ok(Outcome(false, WrongPassword, None))
        else Ok(Outcome(true, LoggedIn, Some(IdOf(u.value, p))))
  }

  /**
   * Login succeeds exactly for a known phone whose stored encoding accepts
   * the password, and then returns that user's id.
   */
  lemma LoginSpec(users: seq<User>, phone: string, password: string, strictCloud: bool, kdf: Kdf)
    ensures var r := LoginOf(users, phone, password, strictCloud, kdf);
            r.Ok? && r.value.ok <==>
              Precheck(phone, password, strictCloud).None? &&
              exists u :: u in users && u.phone == NormalizePhone(phone) &&
                          FindUser(users, NormalizePhone(phone)) == Some(u) &&
                          PasswordVerify(password, u.passwordHash, kdf) == Ok(true)
    ensures var r := LoginOf(users, phone, password, strictCloud, kdf);
            r.Ok? && r.value.ok ==> r.value.userId.Some? && r.value.userId.value != ""
  {
  }

  /**
   * A phone registered with a password logs in with it, getting the id
   * "u_" + phone; another password logs in exactly when the key derivation
   * cannot tell the two apart.
   */
  lemma RegisterThenLogin(users: seq<User>, phone: string, password: string, other: string,
                          salt: seq<byte>, kdf: Kdf, now: string)
    requires Precheck(phone, password, false).None? && ValidPassword(other)
    requires FindUser(users, NormalizePhone(phone)).None?
    ensures var p := NormalizePhone(phone);
            LoginOf(users + [NewUser(p, password, salt, kdf, now)], phone, password, false, kdf) ==
            Ok(Outcome(true, LoggedIn, Some(UserId(p))))
    ensures var p := NormalizePhone(phone);
            var r := LoginOf(users + [NewUser(p, password, salt, kdf, now)], phone, other, false, kdf);
            r.Ok? && (r.value.ok <==> kdf(other, salt, ITERATIONS) == kdf(password, salt, ITERATIONS))
  {
    var p := NormalizePhone(phone);
    var u := NewUser(p, password, salt, kdf, now);
    FindUserAppend(users, p, u);
    PasswordRoundTrip(password, other, salt, kdf);
  }

  lemma {:induction false} FindUserAppend(users: seq<User>, phone: string, u: User)
    requires FindUser(users, phone).None? && u.phone == phone
    ensures FindUser(users + [u], phone) == Some(u)
  {
    if users != [] {
      assert (users + [u])[1..] == users[1..] + [u];
      FindUserAppend(users[1..], phone, u);
    }
  }

  /** `auth_users.json`. */
  class UserFile {
    var users: seq<User>

    constructor ()
      ensures users == []
    {
      users := [];
    }

    /**
     * `register_user` (local branch). Invalid input writes nothing; a
     * known phone reports the stored id and appends nothing; otherwise one
     * user is appended. Phones therefore stay unique.
     */
    method Register(phone: string, password: string, strictCloud: bool, salt: seq<byte>, kdf: Kdf, now: string)
      returns (r: Outcome)
      modifies this
      ensures Precheck(phone, password, strictCloud).Some? ==>
                r == Precheck(phone, password, strictCloud).value && users == old(users)
      ensures Precheck(phone, password, strictCloud).None? && FindUser(old(users), NormalizePhone(phone)).Some? ==>
                r == Outcome(false, AlreadyRegistered,
                             Some(IdOf(FindUser(old(users), NormalizePhone(phone)).value, NormalizePhone(phone)))) &&
                users == old(users)
      ensures Precheck(phone, password, strictCloud).None? && FindUser(old(users), NormalizePhone(phone)).None? ==>
                r == Outcome(true, Registered, Some(UserId(NormalizePhone(phone)))) &&
                users == old(users) + [NewUser(NormalizePhone(phone), password, salt, kdf, now)]
      ensures old(PhonesUnique(users)) ==> PhonesUnique(users)
    {
      var pre := Precheck(phone, password, strictCloud);
      if pre.Some? {
        return pre.value;
      }
      var p := NormalizePhone(phone);
      var i := 0;
      while i < |users| && users[i].phone != p
        invariant 0 <= i <= |users|
        invariant FindUser(users, p) == FindUser(users[i..], p)
      {
        assert users[i..][1..] == users[i + 1..];
        i := i + 1;
      }
      if i < |users| {
        r := Outcome(false, AlreadyRegistered, Some(IdOf(users[i], p)));
        return;
      }
      assert users[i..] == [];
      var u := NewUser(p, password, salt, kdf, now);
      users := users + [u];
      r := Outcome(true, Registered, Some(u.userId));
    }
  }
}
