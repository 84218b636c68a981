/**
 * The certificate store (learnhub/lib/certificates.ts): per-user lists of issued certificates,
 * kept in a map whose keys remember their insertion order, with lookup by id and verification
 * by certificate number across all users.
 *
 * The clock and the two random strings the source draws are parameters.
 */
module Certificates {
  import opened Wrappers
  import opened Strings

  datatype Certificate = Certificate(
    id: string,
    userId: string,
    courseId: string,
    courseName: string,
    studentName: string,
    instructorName: string,
    completionDate: int,
    certificateNumber: string,
    skills: seq<string>,
    grade: Option<string>)

  function Base36Digit(d: nat): char
    requires d < 36
  {
    if d < 10 then ('0' as int + d) as char else ('a' as int + d - 10) as char
  }

  /** `n.toString(36)`: lower-case base-36 digits, most significant first. */
  function ToBase36(n: nat): (r: string)
    ensures |r| >= 1
  {
    if n < 36 then [Base36Digit(n)] else ToBase36(n / 36) + [Base36Digit(n % 36)]
  }

  predicate IsUpperBase36(c: char) {
    '0' <= c <= '9' || 'A' <= c <= 'Z'
  }

  function UpperBase36Value(c: char): nat
    requires IsUpperBase36(c)
  {
    if c <= '9' then c as int - '0' as int else c as int - 'A' as int + 10
  }

  /** Reads back an upper-case base-36 numeral. */
  function ParseUpperBase36(s: string): nat
    requires forall i :: 0 <= i < |s| ==> IsUpperBase36(s[i])
  {
    if s == [] then 0 else ParseUpperBase36(s[..|s| - 1]) * 36 + UpperBase36Value(s[|s| - 1])
  }

  lemma {:induction false} UpperBase36RoundTrip(n: nat)
    ensures forall i :: 0 <= i < |Upper(ToBase36(n))| ==> IsUpperBase36(Upper(ToBase36(n))[i])
    ensures ParseUpperBase36(Upper(ToBase36(n))) == n
  {
    if n >= 36 {
      UpperBase36RoundTrip(n / 36);
      var s := Upper(ToBase36(n));
      assert s[..|s| - 1] == Upper(ToBase36(n / 36));
    }
  }

  /** "LH-" + the timestamp in upper-case base 36 + "-" + the random part in upper case. */
  function CertificateNumber(now: nat, numberRandom: string): string {
    "LH-" + Upper(ToBase36(now)) + "-" + Upper(numberRandom)
  }

  /**
   * A certificate number splits at "-" into "LH", the timestamp and the random part, and the
   * timestamp reads back exactly.
   */
  lemma CertificateNumberDecodes(now: nat, numberRandom: string)
    requires '-' !in numberRandom
    ensures var parts := Split(CertificateNumber(now, numberRandom), '-');
      && parts == ["LH", Upper(ToBase36(now)), Upper(numberRandom)]
      && (forall i :: 0 <= i < |parts[1]| ==> IsUpperBase36(parts[1][i]))
      && ParseUpperBase36(parts[1]) == now
  {
    var t := Upper(ToBase36(now));
    var r := Upper(numberRandom);
    UpperBase36RoundTrip(now);
    assert '-' !in t by {
      forall i | 0 <= i < |t| ensures t[i] != '-' {
        assert IsUpperBase36(t[i]);
      }
    }
    assert '-' !in r by {
      forall i | 0 <= i < |r| ensures r[i] != '-' {
        assert numberRandom[i] != '-';
      }
    }
    assert CertificateNumber(now, numberRandom) == "LH" + ['-'] + (t + ['-'] + r);
    SplitConcat("LH", t + ['-'] + r, '-');
    SplitConcat(t, r, '-');
    SplitSingle(r, '-');
    SplitFirst(r, '-');
  }

  /** The certificate that `generateCertificate` builds, with grade "A". */
  function NewCertificate(userId: string, courseId: string, courseName: string, studentName: string,
                          instructorName: string, skills: seq<string>, now: nat,
                          idRandom: string, numberRandom: string): Certificate {
    Certificate("cert_" + NatToString(now) + "_" + idRandom, userId, courseId, courseName, studentName,
                instructorName, now, CertificateNumber(now, numberRandom), skills, Some("A"))
  }

  /** `find` on a list by certificate id: the first match. */
  function FindById(list: seq<Certificate>, id: string): (r: Option<Certificate>)
    ensures r.Some? ==> r.value in list && r.value.id == id
    ensures r.Some? ==> exists k :: 0 <= k < |list| && list[k] == r.value && forall j :: 0 <= j < k ==> list[j].id != id
    ensures r.None? <==> forall j :: 0 <= j < |list| ==> list[j].id != id
  {
    if list == [] then None
    else if list[0].id == id then Some(list[0])
    else
      var r := FindById(list[1..], id);
      assert r.Some? ==> exists k :: 0 <= k < |list| && list[k] == r.value && forall j :: 0 <= j < k ==> list[j].id != id by {
        if r.Some? {
          var k :| 0 <= k < |list[1..]| && list[1..][k] == r.value && forall j :: 0 <= j < k ==> list[1..][j].id != id;
          assert list[k + 1] == r.value;
          forall j | 0 <= j < k + 1 ensures list[j].id != id {
            if j > 0 {
              assert list[j] == list[1..][j - 1];
            }
          }
        }
      }
      r
  }

  predicate HasNumber(list: seq<Certificate>, number: string) {
    exists j :: 0 <= j < |list| && list[j].certificateNumber == number
  }

  /** `find` on a list by certificate number: the first match. */
  function FindByNumber(list: seq<Certificate>, number: string): (r: Option<Certificate>)
    ensures r.Some? ==> r.value in list && r.value.certificateNumber == number
    ensures r.Some? ==>
      exists k :: 0 <= k < |list| && list[k] == r.value && forall j :: 0 <= j < k ==> list[j].certificateNumber != number
    ensures r.None? <==> !HasNumber(list, number)
  {
    if list == [] then None
    else if list[0].certificateNumber == number then Some(list[0])
    else
      var r := FindByNumber(list[1..], number);
      assert r.Some? ==>
        exists k :: 0 <= k < |list| && list[k] == r.value && forall j :: 0 <= j < k ==> list[j].certificateNumber != number
      by {
        if r.Some? {
          var k :| 0 <= k < |list[1..]| && list[1..][k] == r.value
                   && forall j :: 0 <= j < k ==> list[1..][j].certificateNumber != number;
          assert list[k + 1] == r.value;
          forall j | 0 <= j < k + 1 ensures list[j].certificateNumber != number {
            if j > 0 {
              assert list[j] == list[1..][j - 1];
            }
          }
        }
      }
      assert HasNumber(list, number) ==> HasNumber(list[1..], number) by {
        if HasNumber(list, number) {
          var j :| 0 <= j < |list| && list[j].certificateNumber == number;
          assert list[1..][j - 1] == list[j];
        }
      }
      r
  }

  /** The first certificate with `number` in the lists of `users`, taken in order. */
  function SearchUsers(m: map<string, seq<Certificate>>, users: seq<string>, number: string): (r: Option<Certificate>)
    ensures r.Some? ==>
      r.value.certificateNumber == number && exists i :: 0 <= i < |users| && users[i] in m && r.value in m[users[i]]
    ensures r.Some? ==> exists i :: FirstHolder(m, users, number, i) && r == FindByNumber(m[users[i]], number)
    ensures r.None? <==> forall i :: 0 <= i < |users| && users[i] in m ==> !HasNumber(m[users[i]], number)
  {
    if users == [] then None
    else
      var list := if users[0] in m then m[users[0]] else [];
      match FindByNumber(list, number)
      case Some(c) =>
        assert FirstHolder(m, users, number, 0);
        Some(c)
      case None =>
        var r := SearchUsers(m, users[1..], number);
        SearchUsersStep(m, users, number, r);
        r
  }

  /** A search that skips a first user without the number finds what the search of the rest finds. */
  lemma SearchUsersStep(m: map<string, seq<Certificate>>, users: seq<string>, number: string, r: Option<Certificate>)
    requires users != [] && !(users[0] in m && HasNumber(m[users[0]], number))
    requires r.Some? ==>
      r.value.certificateNumber == number && exists i :: 0 <= i < |users[1..]| && users[1..][i] in m && r.value in m[users[1..][i]]
    requires r.Some? ==> exists i :: FirstHolder(m, users[1..], number, i) && r == FindByNumber(m[users[1..][i]], number)
    requires r.None? <==> forall i :: 0 <= i < |users[1..]| && users[1..][i] in m ==> !HasNumber(m[users[1..][i]], number)
    ensures r.Some? ==>
      r.value.certificateNumber == number && exists i :: 0 <= i < |users| && users[i] in m && r.value in m[users[i]]
    ensures r.Some? ==> exists i :: FirstHolder(m, users, number, i) && r == FindByNumber(m[users[i]], number)
    ensures r.None? <==> forall i :: 0 <= i < |users| && users[i] in m ==> !HasNumber(m[users[i]], number)
  {
    assert forall i :: 1 <= i < |users| ==> users[i] == users[1..][i - 1];
    if r.Some? {
      var i :| FirstHolder(m, users[1..], number, i) && r == FindByNumber(m[users[1..][i]], number);
      assert FirstHolder(m, users, number, i + 1);
      var k :| 0 <= k < |users[1..]| && users[1..][k] in m && r.value in m[users[1..][k]];
      assert users[k + 1] == users[1..][k];
    }
  }

  /** Position `i` holds the first user of `users` whose list holds `number`. */
  predicate FirstHolder(m: map<string, seq<Certificate>>, users: seq<string>, number: string, i: int) {
    && 0 <= i < |users| && users[i] in m && HasNumber(m[users[i]], number)
    && forall j :: 0 <= j < i && users[j] in m ==> !HasNumber(m[users[j]], number)
  }

  /** The store after appending `c` to the list of `userId`, created if absent. */
  function WithIssued(m: map<string, seq<Certificate>>, userId: string, c: Certificate): map<string, seq<Certificate>> {
    m[userId := (if userId in m then m[userId] else []) + [c]]
  }

  class CertificateManager {
    var certificates: map<string, seq<Certificate>>
    /** The keys of `certificates` in insertion order, as a JavaScript `Map` iterates them. */
    var userOrder: seq<string>

    ghost predicate Valid()
      reads this
    {
      && (forall u :: u in certificates <==> u in userOrder)
      && (forall i, j :: 0 <= i < j < |userOrder| ==> userOrder[i] != userOrder[j])
    }

    constructor()
      ensures Valid() && certificates == map[] && userOrder == []
    {
      certificates := map[];
      userOrder := [];
    }

    /** `getUserCertificates`: the user's list, or `[]` for an unknown user. */
    function GetUserCertificates(userId: string): (r: seq<Certificate>)
      reads this
      ensures userId in certificates ==> r == certificates[userId]
      ensures userId !in certificates ==> r == []
    {
      if userId in certificates then certificates[userId] else []
    }

    /** `getCertificate`: the certificate with that id in the user's own list, if any. */
    function GetCertificate(userId: string, certificateId: string): (r: Option<Certificate>)
      reads this
      ensures r.Some? ==> r.value in GetUserCertificates(userId) && r.value.id == certificateId
      ensures r.None? <==> forall j :: 0 <= j < |GetUserCertificates(userId)| ==> GetUserCertificates(userId)[j].id != certificateId
    {
      FindById(GetUserCertificates(userId), certificateId)
    }

    /** `generateCertificate`: appends one certificate to the user's list, creating the list if absent. */
    method GenerateCertificate(userId: string, courseId: string, courseName: string, studentName: string,
                               instructorName: string, skills: seq<string>, now: nat,
                               idRandom: string, numberRandom: string) returns (c: Certificate)
      requires Valid()
      modifies this
      ensures Valid()
      ensures c == NewCertificate(userId, courseId, courseName, studentName, instructorName, skills, now, idRandom, numberRandom)
      ensures certificates == WithIssued(old(certificates), userId, c)
      ensures userOrder == if userId in old(certificates) then old(userOrder) else old(userOrder) + [userId]
    {
      c := NewCertificate(userId, courseId, courseName, studentName, instructorName, skills, now, idRandom, numberRandom);
      if userId !in certificates {
        certificates := certificates[userId := []];
        userOrder := userOrder + [userId];
      }
      certificates := certificates[userId := certificates[userId] + [c]];
    }

    /** `verifyCertificate`: walks the users in insertion order and returns the first certificate with that number. */
    method VerifyCertificate(certificateNumber: string) returns (r: Option<Certificate>)
      requires Valid()
      ensures r == SearchUsers(certificates, userOrder, certificateNumber)
    {
      var i := 0;
      while i < |userOrder|
        invariant 0 <= i <= |userOrder|
        invariant SearchUsers(certificates, userOrder, certificateNumber) == SearchUsers(certificates, userOrder[i..], certificateNumber)
      {
        var found := FindByNumber(certificates[userOrder[i]], certificateNumber);
        if found.Some? {
          return found;
        }
        assert userOrder[i..][1..] == userOrder[i + 1..];
        i := i + 1;
      }
      return None;
    }
  }

  /** Verification finds a certificate exactly when some user holds one with that number. */
  lemma VerifyFindsExactlyIssued(m: CertificateManager, number: string)
    requires m.Valid()
    ensures var r := SearchUsers(m.certificates, m.userOrder, number);
      && (r.None? <==> forall u :: u in m.certificates ==> !HasNumber(m.certificates[u], number))
      && (r.Some? ==> r.value.certificateNumber == number && exists u :: u in m.certificates && r.value in m.certificates[u])
  {
    var r := SearchUsers(m.certificates, m.userOrder, number);
    if r.None? {
      forall u | u in m.certificates ensures !HasNumber(m.certificates[u], number) {
        var i :| 0 <= i < |m.userOrder| && m.userOrder[i] == u;
      }
    }
  }

  /** A certificate just issued is found by its number, and by its id in its owner's list. */
  lemma IssuedCertificateIsFound(m: CertificateManager, c: Certificate, userId: string)
    requires m.Valid() && userId in m.certificates && c in m.certificates[userId]
    ensures SearchUsers(m.certificates, m.userOrder, c.certificateNumber).Some?
    ensures m.GetCertificate(userId, c.id).Some?
  {
    var k :| 0 <= k < |m.certificates[userId]| && m.certificates[userId][k] == c;
    assert HasNumber(m.certificates[userId], c.certificateNumber);
    VerifyFindsExactlyIssued(m, c.certificateNumber);
  }
}
