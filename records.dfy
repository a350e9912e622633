/**
  The registry's records as the crawl reads them, and the pure parameter
  extraction done on them before each write: the corporate/individual
  classification, the nested registration number, the officer id fallback
  and the address join.

  A JSON field that is absent and one that is null are both `None`; a string
  field is `seq<char>`.
*/
module Records {
  import opened Wrappers

  /** A company profile: the fields of the profile body that the crawl reads. */
  datatype Profile = Profile(
    companyNumber: Option<string>,
    companyName: Option<string>,
    companyStatus: Option<string>,
    // the values of `registered_office_address`, in the body's order
    // (an absent address is the empty sequence)
    registeredOfficeAddress: seq<string>,
    dateOfCreation: Option<string>)

  /** One item of a company's officer list. */
  datatype Officer = Officer(
    name: Option<string>,
    officerId: Option<string>,
    // the truthiness of `is_corporate_officer` (absent is false)
    isCorporateOfficer: bool,
    // `identification.registration_number` (absent when `identification` is)
    registrationNumber: Option<string>,
    appointedOn: Option<string>,
    resignedOn: Option<string>,
    officerRole: Option<string>)

  /** One item of a company's list of persons with significant control. */
  datatype Psc = Psc(
    name: Option<string>,
    kind: Option<string>,
    registrationNumber: Option<string>,
    // `links.self`
    selfLink: Option<string>,
    notifiedOn: Option<string>,
    ceasedOn: Option<string>)

  /**
    What the three registry fetches for one company number return. `None`
    stands for a failed fetch and for a body the crawl treats as empty: a
    falsy profile, or an officer/PSC body without `items`.
  */
  datatype Entry = Entry(
    profile: Option<Profile>,
    officers: Option<seq<Officer>>,
    pscs: Option<seq<Psc>>)

  /** The registry, as far as one run sees it; a number it lacks fails all three fetches. */
  type Registry = map<string, Entry>

  function Lookup(registry: Registry, number: string): (e: Entry)
    ensures number !in registry ==> e == Entry(None, None, None)
    ensures number in registry ==> e == registry[number]
  {
    if number in registry then registry[number] else Entry(None, None, None)
  }

  const CorporatePscKind: string := "corporate-entity-person-with-significant-control"

  predicate IsCorporatePsc(psc: Psc) {
    psc.kind == Some(CorporatePscKind)
  }

  /** Python truthiness of an optional string: present and non-empty. */
  predicate Truthy(s: Option<string>) {
    s.Some? && s.value != ""
  }

  /**
    The company number the crawl recurses on for an officer: the nested
    registration number of a corporate officer, when it is truthy.
  */
  function CorporateOfficerNumber(officer: Officer): (r: Option<string>)
    ensures r.Some? <==> officer.isCorporateOfficer && Truthy(officer.registrationNumber)
    ensures r.Some? ==> r == officer.registrationNumber && r.value != ""
  {
    if officer.isCorporateOfficer && Truthy(officer.registrationNumber) then officer.registrationNumber else None
  }

  /** The same rule for a PSC, whose corporate test is its `kind`. */
  function CorporatePscNumber(psc: Psc): (r: Option<string>)
    ensures r.Some? <==> psc.kind == Some(CorporatePscKind) && Truthy(psc.registrationNumber)
    ensures r.Some? ==> r == psc.registrationNumber && r.value != ""
  {
    if IsCorporatePsc(psc) && Truthy(psc.registrationNumber) then psc.registrationNumber else None
  }

  /** The `officer_id` merge parameter: the officer's id, or its name when it has none. */
  function OfficerId(officer: Officer): (r: Option<string>)
    ensures officer.officerId.Some? ==> r == officer.officerId
    ensures officer.officerId.None? ==> r == officer.name
  {
    if officer.officerId.Some? then officer.officerId else officer.name
  }

  /**
    `sep.join(parts)`: an empty list joins to the empty string, and a
    non-empty one starts with its first part (`JoinLayout` places the rest).
  */
  function Join(parts: seq<string>, sep: string): (r: string)
    ensures |parts| == 0 ==> r == ""
    ensures |parts| > 0 ==> parts[0] <= r
  {
    if |parts| == 0 then ""
    else if |parts| == 1 then parts[0]
    else parts[0] + sep + Join(parts[1..], sep)
  }

  /** Where `parts[k]` starts in `Join(parts, sep)`. */
  function Offset(parts: seq<string>, sep: string, k: nat): nat
    requires k < |parts|
  {
    if k == 0 then 0 else |parts[0]| + |sep| + Offset(parts[1..], sep, k - 1)
  }

  /**
    The address a company node gets: the address values joined by ", ". No
    values give the empty address; otherwise every value sits, unchanged, at
    its offset.
  */
  function Address(profile: Profile): (r: string)
    ensures |profile.registeredOfficeAddress| == 0 ==> r == ""
    ensures forall k :: 0 <= k < |profile.registeredOfficeAddress| ==>
      var o := Offset(profile.registeredOfficeAddress, ", ", k);
      o + |profile.registeredOfficeAddress[k]| <= |r| && r[o..o + |profile.registeredOfficeAddress[k]|] == profile.registeredOfficeAddress[k]
  {
    var parts := profile.registeredOfficeAddress;
    assert forall k :: 0 <= k < |parts| ==>
      var o := Offset(parts, ", ", k);
      o + |parts[k]| <= |Join(parts, ", ")| && Join(parts, ", ")[o..o + |parts[k]|] == parts[k]
    by {
      forall k | 0 <= k < |parts|
        ensures Offset(parts, ", ", k) + |parts[k]| <= |Join(parts, ", ")|
        ensures Join(parts, ", ")[Offset(parts, ", ", k)..Offset(parts, ", ", k) + |parts[k]|] == parts[k]
      {
        JoinPart(parts, ", ", k);
      }
    }
    Join(parts, ", ")
  }

  /** A slice past a prefix is a slice of the rest. */
  lemma SliceAfterPrefix(a: string, b: string, i: nat, j: nat)
    requires |a| <= i <= j <= |a| + |b|
    ensures (a + b)[i..j] == b[i - |a|..j - |a|]
  {
  }

  /** Part k sits at `Offset(parts, sep, k)` in the joined string. */
  lemma {:induction false} JoinPart(parts: seq<string>, sep: string, k: nat)
    requires k < |parts|
    ensures Offset(parts, sep, k) + |parts[k]| <= |Join(parts, sep)|
    ensures Join(parts, sep)[Offset(parts, sep, k)..Offset(parts, sep, k) + |parts[k]|] == parts[k]
  {
    if k > 0 {
      var rest := parts[1..];
      JoinPart(rest, sep, k - 1);
      var o := Offset(rest, sep, k - 1);
      assert rest[k - 1] == parts[k];
      SliceAfterPrefix(parts[0] + sep, Join(rest, sep), |parts[0]| + |sep| + o, |parts[0]| + |sep| + o + |parts[k]|);
    }
  }

  /** A separator follows every part but the last. */
  lemma {:induction false} JoinSeparator(parts: seq<string>, sep: string, k: nat)
    requires k + 1 < |parts|
    ensures Offset(parts, sep, k + 1) == Offset(parts, sep, k) + |parts[k]| + |sep|
    ensures Offset(parts, sep, k + 1) <= |Join(parts, sep)|
    ensures Join(parts, sep)[Offset(parts, sep, k) + |parts[k]|..Offset(parts, sep, k + 1)] == sep
  {
    var rest := parts[1..];
    var head := parts[0] + sep;
    assert Join(parts, sep) == head + Join(rest, sep);
    if k == 0 {
      assert Offset(parts, sep, 1) == |head| + Offset(rest, sep, 0);
      assert head[|parts[0]|..|head|] == sep;
    } else {
      JoinSeparator(rest, sep, k - 1);
      assert rest[k - 1] == parts[k];
      assert Offset(parts, sep, k) == |head| + Offset(rest, sep, k - 1);
      assert Offset(parts, sep, k + 1) == |head| + Offset(rest, sep, k);
      var from := Offset(rest, sep, k - 1) + |parts[k]|;
      SliceAfterPrefix(head, Join(rest, sep), |head| + from, |head| + Offset(rest, sep, k));
    }
  }

  /** The last part ends the joined string. */
  lemma {:induction false} JoinLast(parts: seq<string>, sep: string)
    requires |parts| > 0
    ensures Offset(parts, sep, |parts| - 1) + |parts[|parts| - 1]| == |Join(parts, sep)|
  {
    var n := |parts|;
    if n > 1 {
      var rest := parts[1..];
      JoinLast(rest, sep);
      assert rest[n - 2] == parts[n - 1];
      assert Offset(parts, sep, n - 1) == |parts[0]| + |sep| + Offset(rest, sep, n - 2);
      assert Join(parts, sep) == parts[0] + sep + Join(rest, sep);
    }
  }

  /**
    `Join` lays the parts out in order: part k sits at `Offset(parts, sep, k)`,
    a separator follows every part but the last, and the last part ends the
    string. With `Join`'s own contract for the empty list, these determine
    the joined string completely.
  */
  lemma JoinLayout(parts: seq<string>, sep: string, k: nat)
    requires k < |parts|
    ensures Offset(parts, sep, k) + |parts[k]| <= |Join(parts, sep)|
    ensures Join(parts, sep)[Offset(parts, sep, k)..Offset(parts, sep, k) + |parts[k]|] == parts[k]
    ensures k + 1 < |parts| ==>
      Offset(parts, sep, k + 1) == Offset(parts, sep, k) + |parts[k]| + |sep| &&
      Offset(parts, sep, k + 1) <= |Join(parts, sep)| &&
      Join(parts, sep)[Offset(parts, sep, k) + |parts[k]|..Offset(parts, sep, k + 1)] == sep
    ensures k + 1 == |parts| ==> Offset(parts, sep, k) + |parts[k]| == |Join(parts, sep)|
  {
    JoinPart(parts, sep, k);
    if k + 1 < |parts| {
      JoinSeparator(parts, sep, k);
    } else {
      JoinLast(parts, sep);
    }
  }
}
