/** The session store: the signed-in user, a simulated login that derives a display name and a student
    id from the email, signup, logout and a partial profile update. */
module AuthContext {
  import opened Wrappers
  import Text
  import Radix

  datatype User = User(id: string, name: string, email: string,
                       studentId: Option<string>, hostel: Option<string>, phone: Option<string>)

  /** `email.split('@')[0]`: everything before the first '@', or the whole email when there is none. */
  function LocalPart(email: string): (r: string)
    ensures '@' !in r
    ensures |r| <= |email| && r == email[..|r|]
    ensures |r| < |email| ==> email[|r|] == '@'
  {
    if email == [] || email[0] == '@' then [] else [email[0]] + LocalPart(email[1..])
  }

  /** Whether position `i` of `s` begins a word (regular-expression `\b\w`); `prevWord` says whether
      the character before `s` is a word character. */
  predicate StartsWord(s: string, i: nat, prevWord: bool)
    requires i < |s|
  {
    Text.IsWordChar(s[i]) && if i == 0 then !prevWord else !Text.IsWordChar(s[i - 1])
  }

  /** `replace(/\b\w/g, l => l.toUpperCase())`, scanning left to right. */
  function CapitalizeFrom(s: string, prevWord: bool): (r: string)
    ensures |r| == |s|
  {
    if s == [] then []
    else
      var c := if Text.IsWordChar(s[0]) && !prevWord then Text.UpperChar(s[0]) else s[0];
      [c] + CapitalizeFrom(s[1..], Text.IsWordChar(s[0]))
  }

  function Capitalize(s: string): string {
    CapitalizeFrom(s, false)
  }

  /** The scan uppercases exactly the characters that begin a word and keeps every other one. */
  lemma {:induction false} CapitalizeFromSpec(s: string, prevWord: bool)
    ensures forall i :: 0 <= i < |s| ==>
      CapitalizeFrom(s, prevWord)[i] == if StartsWord(s, i, prevWord) then Text.UpperChar(s[i]) else s[i]
  {
    if s != [] {
      var t := s[1..];
      CapitalizeFromSpec(t, Text.IsWordChar(s[0]));
      forall i | 1 <= i < |s|
        ensures CapitalizeFrom(s, prevWord)[i] == if StartsWord(s, i, prevWord) then Text.UpperChar(s[i]) else s[i]
      {
        assert CapitalizeFrom(s, prevWord)[i] == CapitalizeFrom(t, Text.IsWordChar(s[0]))[i - 1];
        assert t[i - 1] == s[i];
        if i > 1 {
          assert t[i - 2] == s[i - 1];
        }
        assert StartsWord(t, i - 1, Text.IsWordChar(s[0])) == StartsWord(s, i, prevWord);
      }
    }
  }

  lemma UpperCharWord(c: char)
    ensures Text.IsWordChar(Text.UpperChar(c)) == Text.IsWordChar(c)
    ensures Text.UpperChar(Text.UpperChar(c)) == Text.UpperChar(c)
    ensures !Text.IsLower(Text.UpperChar(c)) || !Text.IsWordChar(c) || Text.UpperChar(c) == c
  {
  }

  /** `name` of a logged-in user: the local part, dots turned to spaces, each word capitalised. */
  function DisplayName(email: string): (name: string)
    ensures |name| == |LocalPart(email)|
  {
    Capitalize(Text.ReplaceAll(LocalPart(email), '.', ' '))
  }

  /** The display name keeps the local part's length and its characters up to letter case, has no dot
      and no '@', and no word in it begins with a lower-case letter. */
  lemma DisplayNameShape(email: string)
    ensures var name := DisplayName(email); var local := LocalPart(email);
      && '.' !in name && '@' !in name
      && (forall i :: 0 <= i < |name| ==> (local[i] == '.' ==> name[i] == ' '))
      && (forall i :: 0 <= i < |name| && local[i] != '.' ==>
            name[i] == local[i] || name[i] == Text.UpperChar(local[i]))
      && (forall i :: 0 <= i < |name| && StartsWord(name, i, false) ==> !Text.IsLower(name[i]))
  {
    var local := LocalPart(email);
    var dotless := Text.ReplaceAll(local, '.', ' ');
    var name := DisplayName(email);
    CapitalizeFromSpec(dotless, false);
    forall i | 0 <= i < |name| ensures name[i] != '.' && name[i] != '@'
    {
      assert dotless[i] != '.';
      assert dotless[i] != '@' by { assert local[i] in local; }
    }
    forall i | 0 <= i < |name| && StartsWord(name, i, false) ensures !Text.IsLower(name[i]) {
      UpperCharWord(dotless[i]);
      if i > 0 {
        UpperCharWord(dotless[i - 1]);
        assert Text.IsWordChar(name[i - 1]) == Text.IsWordChar(dotless[i - 1]);
      }
    }
  }

  /** Capitalising twice changes nothing: a name that is already displayed is a fixed point. */
  lemma CapitalizeIdempotent(s: string)
    ensures Capitalize(Capitalize(s)) == Capitalize(s)
  {
    var r := Capitalize(s);
    CapitalizeFromSpec(s, false);
    CapitalizeFromSpec(r, false);
    forall i | 0 <= i < |s| ensures Capitalize(r)[i] == r[i] {
      UpperCharWord(s[i]);
      if i > 0 {
        UpperCharWord(s[i - 1]);
      }
      assert StartsWord(r, i, false) == StartsWord(s, i, false);
    }
  }

  /** `'BHU/22/0' + Math.floor(Math.random() * 9000 + 1000)`, the random draw being `roll`. */
  function StudentId(roll: nat): (sid: string)
    requires roll < 9000
    ensures |sid| == 12 && sid[..8] == "BHU/22/0"
    ensures forall i :: 8 <= i < 12 ==> Text.IsDigit(sid[i])
    ensures sid[8] != '0'
    ensures Radix.FromRadix(sid[8..], 10) == roll + 1000
  {
    var digits := Radix.ToRadix(roll + 1000, 10);
    FourDigitNumber(roll + 1000);
    var sid := "BHU/22/0" + digits;
    assert sid[8..] == digits;
    sid
  }

  /** A number from 1000 to 9999 renders as four decimal digits, the first not a zero, that read
      back as the number. */
  lemma FourDigitNumber(n: nat)
    requires 1000 <= n < 10000
    ensures var d := Radix.ToRadix(n, 10);
      && |d| == 4 && d[0] != '0' && Radix.FromRadix(d, 10) == n
      && forall i :: 0 <= i < 4 ==> Text.IsDigit(d[i])
  {
    Radix.ToRadixLength(n, 10, 4);
    Radix.FromToRadix(n, 10);
    Radix.ToRadixLeadingDigit(n, 10);
  }

  /** A `Partial<User>`: `None` leaves the field alone; for the optional fields `Some(None)` clears it. */
  datatype UserUpdate = UserUpdate(id: Option<string>, name: Option<string>, email: Option<string>,
                                   studentId: Option<Option<string>>, hostel: Option<Option<string>>,
                                   phone: Option<Option<string>>)

  const NoUpdate: UserUpdate := UserUpdate(None, None, None, None, None, None)

  /** `{ ...user, ...updates }`. */
  function Merge(u: User, p: UserUpdate): (m: User)
    ensures p.id.Some? ==> m.id == p.id.value
    ensures p.id.None? ==> m.id == u.id
    ensures p.name.Some? ==> m.name == p.name.value
    ensures p.name.None? ==> m.name == u.name
    ensures p.email.Some? ==> m.email == p.email.value
    ensures p.email.None? ==> m.email == u.email
    ensures p.studentId.Some? ==> m.studentId == p.studentId.value
    ensures p.studentId.None? ==> m.studentId == u.studentId
    ensures p.hostel.Some? ==> m.hostel == p.hostel.value
    ensures p.hostel.None? ==> m.hostel == u.hostel
    ensures p.phone.Some? ==> m.phone == p.phone.value
    ensures p.phone.None? ==> m.phone == u.phone
  {
    User(if p.id.Some? then p.id.value else u.id,
         if p.name.Some? then p.name.value else u.name,
         if p.email.Some? then p.email.value else u.email,
         if p.studentId.Some? then p.studentId.value else u.studentId,
         if p.hostel.Some? then p.hostel.value else u.hostel,
         if p.phone.Some? then p.phone.value else u.phone)
  }

  /** `{ ...p, ...q }`: the later update wins field by field. */
  function Then(p: UserUpdate, q: UserUpdate): UserUpdate {
    UserUpdate(if q.id.Some? then q.id else p.id,
               if q.name.Some? then q.name else p.name,
               if q.email.Some? then q.email else p.email,
               if q.studentId.Some? then q.studentId else p.studentId,
               if q.hostel.Some? then q.hostel else p.hostel,
               if q.phone.Some? then q.phone else p.phone)
  }

  /** An empty update changes nothing, repeating an update changes nothing more, and two updates in a
      row act as one update in which the later one wins. */
  lemma MergeLaws(u: User, p: UserUpdate, q: UserUpdate)
    ensures Merge(u, NoUpdate) == u
    ensures Merge(Merge(u, p), p) == Merge(u, p)
    ensures Merge(Merge(u, p), q) == Merge(u, Then(p, q))
  {
  }

  class AuthSession {
    var user: Option<User>

    constructor ()
      ensures user == None
    {
      user := None;
    }

    /** `!!user`. */
    predicate IsAuthenticated()
      reads this
    {
      user.Some?
    }

    /** The simulated `login`: any non-empty email signs in as `user-1`; the password is not read.
        `roll` is the random draw behind the student id. */
    method Login(email: string, roll: nat) returns (ok: bool)
      requires roll < 9000
      modifies this
      ensures ok <==> email != ""
      ensures ok ==> user == Some(User("user-1", DisplayName(email), email, Some(StudentId(roll)), None, None))
      ensures !ok ==> user == old(user)
      ensures ok ==> IsAuthenticated()
    {
      if email != "" {
        user := Some(User("user-1", DisplayName(email), email, Some(StudentId(roll)), None, None));
        return true;
      }
      return false;
    }

    /** The simulated `signup`: always succeeds; `clock` is `Date.now()`. */
    method Signup(name: string, email: string, studentId: Option<string>, clock: nat) returns (ok: bool)
      modifies this
      ensures ok && IsAuthenticated()
      ensures user == Some(User("user-" + Radix.ToRadix(clock, 10), name, email, studentId, None, None))
    {
      user := Some(User("user-" + Radix.ToRadix(clock, 10), name, email, studentId, None, None));
      return true;
    }

    method Logout()
      modifies this
      ensures user == None && !IsAuthenticated()
    {
      user := None;
    }

    /** `if (user) setUser({ ...user, ...updates })`. */
    method UpdateProfile(updates: UserUpdate)
      modifies this
      ensures old(user).None? ==> user == None
      ensures old(user).Some? ==> user == Some(Merge(old(user).value, updates))
      ensures IsAuthenticated() == old(IsAuthenticated())
    {
      if user.Some? {
        user := Some(Merge(user.value, updates));
      }
    }
  }

  /** The local part of a typical address. */
  lemma LocalPartExample()
    ensures LocalPart("a.b@x") == "a.b"
  {
  }

  /** The display name of the same address. */
  lemma DisplayNameExample()
    ensures DisplayName("a.b@x") == "A B"
  {
    LocalPartExample();
    var dotless := Text.ReplaceAll("a.b", '.', ' ');
    assert dotless == "a b";
    CapitalizeFromSpec(dotless, false);
    assert StartsWord(dotless, 0, false) && !StartsWord(dotless, 1, false) && StartsWord(dotless, 2, false);
  }
}
