/**
 * The login form (src/pages/LoginPage.jsx): the email-format predicate and the sequence of
 * checks and state changes of the submit handler. The handler is split at its one
 * `await`: SubmitLogin is what runs before the request goes out, CompleteLogin what runs
 * when it settles. The server's reply is a parameter.
 */
module LoginPage {
  import opened Wrappers
  import opened Domain

  const MissingFields := "Please enter both name and email."
  const InvalidEmail := "Please enter a valid email address."
  const InvalidCredentials := "Invalid login credentials. Please try again."
  const UnexpectedError := "unexpected error occurred. Please try again."

  /** The characters ECMAScript's `\s` matches (WhiteSpace and LineTerminator). */
  predicate IsJsSpace(c: char) {
    || c == '\t' || c == '\n' || c == '\U{000B}' || c == '\U{000C}' || c == '\r' || c == ' '
    || c == '\U{00A0}' || c == '\U{1680}' || ('\U{2000}' <= c <= '\U{200A}')
    || c == '\U{2028}' || c == '\U{2029}' || c == '\U{202F}' || c == '\U{205F}'
    || c == '\U{3000}' || c == '\U{FEFF}'
  }

  /** `s[lo..hi]` is a run of `[^\s@]`. */
  predicate PlainRun(s: string, lo: int, hi: int)
    requires 0 <= lo <= hi <= |s|
  {
    forall k | lo <= k < hi :: !IsJsSpace(s[k]) && s[k] != '@'
  }

  /**
   * `/^[^\s@]+@[^\s@]+\.[^\s@]+$/.test(s)`: `s` splits at an '@' (index i) and a later
   * '.' (index j) into three non-empty runs without whitespace or '@'.
   */
  predicate IsValidEmail(s: string)
    ensures IsValidEmail(s) ==> 5 <= |s| && '@' in s && '.' in s
  {
    exists i, j | 0 < i && i + 1 < j < |s| - 1 ::
      s[i] == '@' && s[j] == '.' && PlainRun(s, 0, i) && PlainRun(s, i + 1, j) && PlainRun(s, j + 1, |s|)
  }

  /** `d` has a '.' that is neither its first nor its last character. */
  ghost predicate HasInnerDot(d: string) {
    exists j | 0 < j < |d| - 1 :: d[j] == '.'
  }

  /**
   * What the pattern says in words: no whitespace, exactly one '@', something before the
   * '@', and after it a '.' that is neither its first nor its last character.
   */
  ghost predicate WellFormedEmail(s: string) {
    && (forall k | 0 <= k < |s| :: !IsJsSpace(s[k]))
    && multiset(s)['@'] == 1
    && exists i | 0 < i < |s| :: s[i] == '@' && HasInnerDot(s[i + 1..])
  }

  /** The pattern accepts exactly the well-formed emails. */
  lemma ValidEmailIff(s: string)
    ensures IsValidEmail(s) <==> WellFormedEmail(s)
  {
    if IsValidEmail(s) {
      ValidIsWellFormed(s);
    }
    if WellFormedEmail(s) {
      WellFormedIsValid(s);
    }
  }

  lemma ValidIsWellFormed(s: string)
    requires IsValidEmail(s)
    ensures WellFormedEmail(s)
  {
    var i, j :| 0 < i && i + 1 < j < |s| - 1 && s[i] == '@' && s[j] == '.'
      && PlainRun(s, 0, i) && PlainRun(s, i + 1, j) && PlainRun(s, j + 1, |s|);
    RunsHaveNoSpace(s, i, j);
    RunsHaveOneAt(s, i, j);
    var d := s[i + 1..];
    assert 0 < j - i - 1 < |d| - 1 && d[j - i - 1] == '.';
  }

  lemma WellFormedIsValid(s: string)
    requires WellFormedEmail(s)
    ensures IsValidEmail(s)
  {
    var i :| 0 < i < |s| && s[i] == '@' && HasInnerDot(s[i + 1..]);
    var d := s[i + 1..];
    var j' :| 0 < j' < |d| - 1 && d[j'] == '.';
    var j := i + 1 + j';
    assert s[j] == '.';
    OnlyAt(s, i);
    assert PlainRun(s, 0, i);
    assert PlainRun(s, i + 1, j);
    assert PlainRun(s, j + 1, |s|);
  }

  /** The three runs with the '@' and the '.' between them hold no whitespace. */
  lemma RunsHaveNoSpace(s: string, i: int, j: int)
    requires 0 < i && i + 1 < j < |s| - 1 && s[i] == '@' && s[j] == '.'
    requires PlainRun(s, 0, i) && PlainRun(s, i + 1, j) && PlainRun(s, j + 1, |s|)
    ensures forall k | 0 <= k < |s| :: !IsJsSpace(s[k])
  {
  }

  /** The three runs with the '@' and the '.' between them hold exactly one '@'. */
  lemma RunsHaveOneAt(s: string, i: int, j: int)
    requires 0 < i && i + 1 < j < |s| - 1 && s[i] == '@' && s[j] == '.'
    requires PlainRun(s, 0, i) && PlainRun(s, i + 1, j) && PlainRun(s, j + 1, |s|)
    ensures multiset(s)['@'] == 1
  {
    forall k | 0 <= k < |s| && k != i
      ensures s[k] != '@'
    {
      if k == j {
      } else if k < i {
        assert PlainRun(s, 0, i);
      } else if k < j {
        assert PlainRun(s, i + 1, j);
      } else {
        assert PlainRun(s, j + 1, |s|);
      }
    }
    SingleAt(s, i);
  }

  /** An '@' at index i and nowhere else makes one '@' in all. */
  lemma SingleAt(s: string, i: int)
    requires 0 <= i < |s| && s[i] == '@'
    requires forall k | 0 <= k < |s| && k != i :: s[k] != '@'
    ensures multiset(s)['@'] == 1
  {
    assert s == s[..i] + [s[i]] + s[i + 1..];
    assert '@' !in s[..i];
    assert '@' !in s[i + 1..];
    assert multiset(s) == multiset(s[..i]) + multiset{'@'} + multiset(s[i + 1..]);
  }

  /** When there is one '@' in all and it is at index i, no other index holds one. */
  lemma OnlyAt(s: string, i: int)
    requires 0 <= i < |s| && s[i] == '@' && multiset(s)['@'] == 1
    ensures forall k | 0 <= k < |s| && k != i :: s[k] != '@'
  {
    assert s == s[..i] + [s[i]] + s[i + 1..];
    assert multiset(s) == multiset(s[..i]) + multiset{'@'} + multiset(s[i + 1..]);
    assert '@' !in s[..i] && '@' !in s[i + 1..];
    forall k | 0 <= k < |s| && k != i
      ensures s[k] != '@'
    {
      if k < i {
        assert s[k] == s[..i][k];
      } else {
        assert s[k] == s[i + 1..][k - i - 1];
      }
    }
  }

  /** The reply to `POST /auth/login`: ok, not ok, or a thrown error. */
  datatype LoginReply = ReplyOk | ReplyNotOk | ReplyThrew

  class LoginView {
    var email: string
    var name: string
    var error: Option<string>
    var isLoading: bool
    /** The users handed to the authentication context's `login`, oldest first. */
    var logins: seq<User>
    /** The routes navigated to, oldest first. */
    var navigations: seq<string>

    constructor ()
      ensures email == "" && name == "" && error == None && !isLoading
      ensures logins == [] && navigations == []
    {
      email := "";
      name := "";
      error := None;
      isLoading := false;
      logins := [];
      navigations := [];
    }

    /**
     * The part of handleLogin before the request: a missing name or email is reported
     * first, then a malformed email; only when both checks pass is the request
     * (`sent`, the name and email) made, with loading on and the error cleared.
     */
    method SubmitLogin() returns (sent: Option<User>)
      modifies this
      ensures name == old(name) && email == old(email)
      ensures logins == old(logins) && navigations == old(navigations)
      ensures old(name) == "" || old(email) == "" ==>
        sent.None? && error == Some(MissingFields) && isLoading == old(isLoading)
      ensures old(name) != "" && old(email) != "" && !IsValidEmail(old(email)) ==>
        sent.None? && error == Some(InvalidEmail) && isLoading == old(isLoading)
      ensures old(name) != "" && old(email) != "" && IsValidEmail(old(email)) ==>
        sent == Some(User(old(name), old(email))) && isLoading && error.None?
    {
      if name == "" || email == "" {
        error := Some(MissingFields);
        return None;
      }
      if !IsValidEmail(email) {
        error := Some(InvalidEmail);
        return None;
      }
      isLoading := true;
      error := None;
      sent := Some(User(name, email));
    }

    /**
     * The part of handleLogin after the request settles. It works on the name and email
     * that were sent: an ok reply signs that user in, clears both fields and goes to
     * the search page; otherwise the matching error is shown. Loading always ends.
     */
    method CompleteLogin(sent: User, reply: LoginReply)
      modifies this
      ensures !isLoading
      ensures reply.ReplyOk? ==>
        && logins == old(logins) + [sent] && navigations == old(navigations) + ["/search"]
        && email == "" && name == "" && error == old(error)
      ensures reply.ReplyNotOk? ==>
        && error == Some(InvalidCredentials) && logins == old(logins) && navigations == old(navigations)
        && email == old(email) && name == old(name)
      ensures reply.ReplyThrew? ==>
        && error == Some(UnexpectedError) && logins == old(logins) && navigations == old(navigations)
        && email == old(email) && name == old(name)
    {
      if reply.ReplyOk? {
        logins := logins + [sent];
        email := "";
        name := "";
        navigations := navigations + ["/search"];
      } else if reply.ReplyNotOk? {
        error := Some(InvalidCredentials);
      } else {
        error := Some(UnexpectedError);
      }
      isLoading := false;
    }

    /**
     * handleLogin from submit to settlement, with no other event in between: no request
     * unless both checks pass; otherwise the outcome of the reply, and loading ends.
     */
    method HandleLogin(reply: LoginReply) returns (sent: Option<User>)
      modifies this
      ensures sent.Some? <==> old(name) != "" && old(email) != "" && IsValidEmail(old(email))
      ensures sent.None? ==>
        name == old(name) && email == old(email) && logins == old(logins) && isLoading == old(isLoading)
      ensures sent.None? && (old(name) == "" || old(email) == "") ==> error == Some(MissingFields)
      ensures sent.None? && old(name) != "" && old(email) != "" ==> error == Some(InvalidEmail)
      ensures sent.Some? ==> sent.value == User(old(name), old(email)) && !isLoading
      ensures sent.None? ==> navigations == old(navigations)
      ensures sent.Some? && reply.ReplyOk? ==>
        && logins == old(logins) + [sent.value] && navigations == old(navigations) + ["/search"]
        && email == "" && name == "" && error.None?
      ensures sent.Some? && !reply.ReplyOk? ==>
        && logins == old(logins) && navigations == old(navigations)
        && name == old(name) && email == old(email)
      ensures sent.Some? && reply.ReplyNotOk? ==> error == Some(InvalidCredentials)
      ensures sent.Some? && reply.ReplyThrew? ==> error == Some(UnexpectedError)
    {
      sent := SubmitLogin();
      if sent.Some? {
        CompleteLogin(sent.value, reply);
      }
    }
  }
}
