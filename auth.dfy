/**
 * Email verification and login (server/routes/auth.js). The pending
 * verifications live in a map keyed by email; accounts stand in for the
 * users collection. The clock (`now`, in milliseconds), `Math.random()`
 * (`r`), the random hex token, the outcome of sending mail and the outcome
 * of saving a user are parameters.
 */
module Auth {
  import opened Common

  /** `Math.floor(100000 + r * 900000)` for a draw `r` of `Math.random()`. */
  function Otp(r: real): int
  {
    (100000.0 + r * 900000.0).Floor
  }

  /** The code is a six-digit number. */
  lemma OtpRange(r: real)
    requires 0.0 <= r < 1.0
    ensures 100000 <= Otp(r) <= 999999
  {
  }

  function Digit(d: nat): (c: char)
    requires d < 10
    ensures '0' <= c <= '9'
  {
    ('0' as int + d) as char
  }

  /** `n.toString()` for a non-negative integer: its decimal digits, most significant first. */
  function DecimalString(n: nat): (s: string)
    ensures |s| >= 1
    ensures forall i :: 0 <= i < |s| ==> '0' <= s[i] <= '9'
  {
    if n < 10 then [Digit(n)] else DecimalString(n / 10) + [Digit(n % 10)]
  }

  function Pow10(k: nat): (p: nat)
    ensures p >= 1
  {
    if k == 0 then 1 else 10 * Pow10(k - 1)
  }

  /** A number with k + 1 digits is written with k + 1 characters. */
  lemma {:induction false} DecimalLength(n: nat, k: nat)
    requires Pow10(k) <= n < Pow10(k + 1)
    ensures |DecimalString(n)| == k + 1
  {
    if k > 0 {
      DecimalLength(n / 10, k - 1);
    }
  }

  /** Different numbers have different decimal strings, so comparing codes as strings compares them as numbers. */
  lemma {:induction false} DecimalInjective(a: nat, b: nat)
    requires DecimalString(a) == DecimalString(b)
    ensures a == b
  {
    var s := DecimalString(a);
    if a >= 10 && b >= 10 {
      assert DecimalString(a / 10) == s[..|s| - 1] == DecimalString(b / 10);
      DecimalInjective(a / 10, b / 10);
      assert Digit(a % 10) == s[|s| - 1] == Digit(b % 10);
    }
  }

  /** The emailed code: six decimal digits. */
  lemma OtpStringSixDigits(r: real)
    requires 0.0 <= r < 1.0
    ensures |DecimalString(Otp(r))| == 6
  {
    OtpRange(r);
    assert Pow10(5) == 100000 && Pow10(6) == 1000000;
    DecimalLength(Otp(r), 5);
  }

  const MinuteMs := 60000
  const WindowMinutes := 10

  /** More than ten whole minutes (`Math.floor(diff / 60000) > 10`) since the code was issued. */
  predicate Expired(createdAt: int, now: int)
  {
    (now - createdAt) / MinuteMs > WindowMinutes
  }

  /**
   * A code expires exactly when eleven full minutes have passed: ten
   * minutes and fifty-nine seconds is still accepted, and a clock that went
   * backwards never expires a code.
   */
  lemma ExpiredExactly(createdAt: int, now: int)
    ensures Expired(createdAt, now) <==> now - createdAt >= 11 * MinuteMs
  {
  }

  /** An entry of the verification map. */
  datatype Pending = Pending(name: string, email: string, otp: string, token: string, createdAt: int)

  datatype Account = Account(name: string, email: string, password: string, emailVerified: bool)

  datatype Reply = Reply(status: int, message: string)

  const NotFoundOrExpired := "Email not found or verification session expired"
  const InvalidCode := "Invalid verification code"
  const CodeExpired := "Verification code expired. Please request a new one."
  const InvalidCredentials := "Invalid email or password"
  const ServerError := "Server error. Please try again later."

  /** A reply of the legacy register route together with the accounts afterwards. */
  datatype Registration = Registration(reply: Reply, users: map<string, Account>)

  const UserExists := "User already exists"

  /**
   * The legacy register route as written: 400 for a known email; otherwise
   * the account is saved first (500 when the save fails) and only then is
   * the token signed with `process.env.JWT_SECRET` itself rather than the
   * configured secret, so with that variable unset (`secretSet` false) the
   * signing throws and the reply is 500 although the account now exists.
   */
  function RegisterOutcome(users: map<string, Account>, name: string, email: string, password: string,
                           saved: bool, secretSet: bool): (r: Registration)
    ensures email in users ==> r == Registration(Reply(400, UserExists), users)
    ensures email !in users && !saved ==> r == Registration(Reply(500, ServerError), users)
    ensures email !in users && saved ==> r.users == users[email := Account(name, email, password, false)]
    ensures email !in users && saved ==> (r.reply.status == 201 <==> secretSet)
    ensures email !in users && saved && !secretSet ==> r.reply == Reply(500, ServerError)
  {
    if email in users then Registration(Reply(400, UserExists), users)
    else if !saved then Registration(Reply(500, ServerError), users)
    else
      var after := users[email := Account(name, email, password, false)];
      if secretSet then Registration(Reply(201, "Registered"), after)
      else Registration(Reply(500, ServerError), after)
  }

  /**
   * As written, a registration answered 500 for want of JWT_SECRET has
   * stored the account, so the client's retry is refused with 400.
   */
  lemma RegisterFailureStrandsAccount(users: map<string, Account>, name: string, email: string, password: string)
    requires email !in users
    ensures var r := RegisterOutcome(users, name, email, password, true, false);
      && r.reply.status == 500
      && email in r.users
      && RegisterOutcome(r.users, name, email, password, true, true).reply == Reply(400, UserExists)
  {
  }

  /**
   * The registration the route evidently intends, signing with the
   * configured secret (server/config.js falls back to a default, so a
   * secret is always there): a reply other than 201 leaves the accounts as
   * they were, and 201 is answered exactly when the email is new and the
   * save succeeds.
   */
  function RegisterIntended(users: map<string, Account>, name: string, email: string, password: string,
                            saved: bool): (r: Registration)
    ensures r.reply.status != 201 ==> r.users == users
    ensures r.reply.status == 201 <==> email !in users && saved
    ensures r.reply.status == 201 ==> r.users == users[email := Account(name, email, password, false)]
  {
    RegisterOutcome(users, name, email, password, saved, true)
  }

  class VerificationStore {
    var pending: map<string, Pending>
    var users: map<string, Account>

    /** Entries are stored under their own email. */
    ghost predicate Valid()
      reads this
    {
      forall e :: e in pending ==> pending[e].email == e
    }

    constructor (accounts: map<string, Account>)
      ensures Valid() && pending == map[] && users == accounts
    {
      pending := map[];
      users := accounts;
    }

    /**
     * request-verification: 400 when the email has an account; otherwise a
     * fresh entry replaces any earlier one, and the reply is 200 unless
     * sending the mail throws (500, with the entry already stored).
     */
    method RequestVerification(name: string, email: string, r: real, token: string, now: int, mailSent: bool)
      returns (reply: Reply)
      requires Valid() && 0.0 <= r < 1.0
      modifies this
      ensures Valid() && users == old(users)
      ensures email in old(users) ==> reply == Reply(400, "User with this email already exists") && pending == old(pending)
      ensures email !in old(users) ==>
        && pending == old(pending)[email := Pending(name, email, DecimalString(Otp(r)), token, now)]
        && |pending[email].otp| == 6
        && reply.status == (if mailSent then 200 else 500)
    {
      if email in users {
        return Reply(400, "User with this email already exists");
      }
      OtpStringSixDigits(r);
      var otp := DecimalString(Otp(r));
      pending := pending[email := Pending(name, email, otp, token, now)];
      if mailSent {
        reply := Reply(200, "Verification code sent to your email");
      } else {
        reply := Reply(500, ServerError);
      }
    }

    /** resend-verification: 400 without an entry; otherwise a new code and a new issue time, the name and token kept. */
    method ResendVerification(email: string, r: real, now: int, mailSent: bool) returns (reply: Reply)
      requires Valid() && 0.0 <= r < 1.0
      modifies this
      ensures Valid() && users == old(users)
      ensures email !in old(pending) ==> reply == Reply(400, "Email not found in verification process") && pending == old(pending)
      ensures email in old(pending) ==>
        && pending == old(pending)[email := old(pending)[email].(otp := DecimalString(Otp(r)), createdAt := now)]
        && pending[email].name == old(pending)[email].name && pending[email].token == old(pending)[email].token
        && reply.status == (if mailSent then 200 else 500)
    {
      if email !in pending {
        return Reply(400, "Email not found in verification process");
      }
      var userData := pending[email];
      pending := pending[email := userData.(otp := DecimalString(Otp(r)), createdAt := now)];
      if mailSent {
        reply := Reply(200, "New verification code sent to your email");
      } else {
        reply := Reply(500, ServerError);
      }
    }

    /**
     * verify-email: the missing entry, the wrong code and the expired code
     * are checked in that order; success hands back the entry's token and
     * leaves the entry in place.
     */
    method VerifyEmail(email: string, otp: string, now: int) returns (reply: Reply, token: Option<string>)
      ensures email !in pending ==> reply == Reply(400, NotFoundOrExpired)
      ensures email in pending && pending[email].otp != otp ==> reply == Reply(400, InvalidCode)
      ensures email in pending && pending[email].otp == otp && Expired(pending[email].createdAt, now) ==>
        reply == Reply(400, CodeExpired)
      ensures reply.status == 200 <==>
        email in pending && pending[email].otp == otp && !Expired(pending[email].createdAt, now)
      ensures reply.status != 200 ==> reply.status == 400 && token == None
      ensures reply.status == 200 ==> token == Some(pending[email].token)
    {
      if email !in pending {
        return Reply(400, NotFoundOrExpired), None;
      }
      var userData := pending[email];
      if userData.otp != otp {
        return Reply(400, InvalidCode), None;
      }
      if Expired(userData.createdAt, now) {
        return Reply(400, CodeExpired), None;
      }
      reply := Reply(200, "Email verified successfully");
      token := Some(userData.token);
    }

    /**
     * complete-registration: the missing entry, the wrong token and the
     * expired window are refused with 400; a failed save answers 500 and
     * keeps the entry; otherwise the verified account is created and the
     * entry deleted, so the same completion cannot succeed twice.
     */
    method CompleteRegistration(email: string, password: string, verificationToken: string, now: int, saved: bool)
      returns (reply: Reply)
      requires Valid()
      modifies this
      ensures Valid()
      ensures email !in old(pending) ==> reply == Reply(400, NotFoundOrExpired)
      ensures email in old(pending) && old(pending)[email].token != verificationToken ==>
        reply == Reply(400, "Invalid verification token")
      ensures (email in old(pending) && old(pending)[email].token == verificationToken
               && Expired(old(pending)[email].createdAt, now)) ==> reply == Reply(400, CodeExpired)
      ensures reply.status != 201 ==> pending == old(pending) && users == old(users)
      ensures reply.status == 201 <==>
        && email in old(pending) && old(pending)[email].token == verificationToken
        && !Expired(old(pending)[email].createdAt, now) && saved
      ensures reply.status == 201 ==>
        && users == old(users)[email := Account(old(pending)[email].name, email, password, true)]
        && pending == old(pending) - {email}
        && email !in pending
    {
      if email !in pending {
        return Reply(400, NotFoundOrExpired);
      }
      var userData := pending[email];
      if userData.token != verificationToken {
        return Reply(400, "Invalid verification token");
      }
      if Expired(userData.createdAt, now) {
        return Reply(400, CodeExpired);
      }
      if !saved {
        return Reply(500, ServerError);
      }
      users := users[userData.email := Account(userData.name, userData.email, password, true)];
      pending := pending - {email};
      reply := Reply(201, "Registered");
    }

    /** login: an unknown email and a wrong password get the same 400 reply. */
    method Login(email: string, password: string) returns (reply: Reply, account: Option<Account>)
      ensures email !in users ==> reply == Reply(400, InvalidCredentials) && account == None
      ensures email in users && users[email].password != password ==> reply == Reply(400, InvalidCredentials) && account == None
      ensures email in users && users[email].password == password ==> reply.status == 200 && account == Some(users[email])
    {
      if email !in users {
        return Reply(400, InvalidCredentials), None;
      }
      var user := users[email];
      if user.password != password {
        return Reply(400, InvalidCredentials), None;
      }
      reply := Reply(200, "Logged in");
      account := Some(user);
    }

    /**
     * The legacy register route: 400 for a known email, 500 when the save
     * fails, and otherwise an unverified account, answered 201 only when
     * JWT_SECRET is set in the environment.
     */
    method Register(name: string, email: string, password: string, saved: bool, secretSet: bool) returns (reply: Reply)
      requires Valid()
      modifies this
      ensures Valid() && pending == old(pending)
      ensures Registration(reply, users) == RegisterOutcome(old(users), name, email, password, saved, secretSet)
      ensures email in old(users) ==> reply == Reply(400, UserExists) && users == old(users)
      ensures email !in old(users) && !saved ==> reply == Reply(500, ServerError) && users == old(users)
      ensures email !in old(users) && saved ==>
        && users == old(users)[email := Account(name, email, password, false)]
        && reply.status == (if secretSet then 201 else 500)
    {
      if email in users {
        return Reply(400, UserExists);
      }
      if !saved {
        return Reply(500, ServerError);
      }
      users := users[email := Account(name, email, password, false)];
      if !secretSet {
        return Reply(500, ServerError);
      }
      reply := Reply(201, "Registered");
    }
  }
}
