/**
 * Google Business resource names (providers/google_business.py): building the
 * parent a post is published under, splitting a stored name back into its
 * account and location, and pointing a provider's credentials at it.
 */
module ResourceNames {
  import opened Wrappers
  import opened Strings

  const ACCOUNTS: string := "accounts/"
  const LOCATIONS: string := "locations/"
  const BETWEEN: string := "/locations/"
  const SLASH: set<char> := {'/'}

  /** The two names a stored id carries; either is empty when it does not. */
  datatype Target = Target(account: string, location: string)

  // ---------------------------------------------------------------------
  // Taking text apart
  // ---------------------------------------------------------------------

  function StripStart(s: string, drop: set<char>): (r: string)
    ensures |r| <= |s|
  {
    if s != "" && s[0] in drop then StripStart(s[1..], drop) else s
  }

  function StripEnd(s: string, drop: set<char>): (r: string)
    ensures |r| <= |s| && r == s[..|r|]
    ensures s != "" && s[0] !in drop ==> r != ""
    ensures r != "" ==> r[|r| - 1] !in drop
    ensures s != "" && s[|s| - 1] in drop ==> |r| < |s|
  {
    if s != "" && s[|s| - 1] in drop then StripEnd(s[..|s| - 1], drop) else s
  }

  function Strip(s: string, drop: set<char>): (r: string)
    ensures |r| <= |s|
    ensures s != "" && s[0] !in drop ==> r != "" && r == s[..|r|] && r[|r| - 1] !in drop
    ensures s != "" && s[0] !in drop && s[|s| - 1] in drop ==> |r| < |s|
    ensures s == "" || (s[0] !in drop && s[|s| - 1] !in drop) ==> r == s
  {
    StripEnd(StripStart(s, drop), drop)
  }

  predicate HasPrefix(s: string, p: string) {
    |p| <= |s| && s[..|p|] == p
  }

  predicate Occurs(s: string, sep: string, i: nat) {
    i + |sep| <= |s| && s[i..i + |sep|] == sep
  }

  /** Where `sep` first occurs. */
  function Find(s: string, sep: string): (i: Option<nat>)
    ensures i.Some? ==> Occurs(s, sep, i.value)
  {
    if Occurs(s, sep, 0) then Some(0)
    else if s == "" then None
    else match Find(s[1..], sep)
      case None => None
      case Some(i) =>
        assert s[1 + i..1 + i + |sep|] == s[1..][i..i + |sep|];
        Some(1 + i)
  }

  /** The part before the first slash. */
  function FirstSegment(s: string): (r: string)
    ensures |r| <= |s|
  {
    if s == "" || s[0] == '/' then "" else [s[0]] + FirstSegment(s[1..])
  }

  /** The part after the last slash. */
  function LastSegment(s: string): (r: string)
    ensures '/' !in r
  {
    if s == "" || s[|s| - 1] == '/' then "" else LastSegment(s[..|s| - 1]) + [s[|s| - 1]]
  }

  // ---------------------------------------------------------------------
  // Names
  // ---------------------------------------------------------------------

  function ResourceId(name: string): (id: string)
    ensures '/' !in id
  {
    LastSegment(Strip(name, SLASH))
  }

  /** The account-qualified name of a location. */
  function Full(account: string, location: string): (name: string) {
    ACCOUNTS + account + BETWEEN + location
  }

  function V4LocationParent(accountId: string, locationId: string): (parent: string)
  {
    var location := Strip(locationId, SLASH);
    if HasPrefix(location, ACCOUNTS) && Find(location, BETWEEN).Some? then
      var i := Find(location, BETWEEN).value;
      location[..i] + BETWEEN + FirstSegment(location[i + |BETWEEN|..])
    else
      ACCOUNTS + ResourceId(accountId) + BETWEEN + ResourceId(location)
  }

  function LocationName(id: string): (name: string) {
    if id != "" then LOCATIONS + id else ""
  }

  function StoredTarget(platformId: string): (target: Target)
  {
    var raw := Strip(Strip(platformId, SPACES), SLASH);
    if HasPrefix(raw, ACCOUNTS) && Find(raw, BETWEEN).Some? then
      var i := Find(raw, BETWEEN).value;
      Target(if HasPrefix(raw[..i], ACCOUNTS) then raw[..i] else "",
             LocationName(FirstSegment(raw[i + |BETWEEN|..])))
    else if HasPrefix(raw, LOCATIONS) then
      Target("", LocationName(FirstSegment(raw[|LOCATIONS|..])))
    else if HasPrefix(raw, ACCOUNTS) && '/' !in raw[|ACCOUNTS|..] then
      Target(raw, "")
    else
      Target("", "")
  }

  // ---------------------------------------------------------------------
  // Credentials
  // ---------------------------------------------------------------------

  function Get(entries: map<string, string>, key: string): (value: string) {
    if key in entries then entries[key] else ""
  }

  function First(a: string, b: string): (r: string) {
    if a != "" then a else b
  }

  /** The account the `account_id` entry names, as a resource name or bare. */
  function ExplicitAccount(entries: map<string, string>): (account: string) {
    var named := StoredTarget(Get(entries, "account_id")).account;
    var bare := Strip(Strip(Get(entries, "account_id"), SPACES), SLASH);
    if named != "" then named
    else if bare != "" && '/' !in bare then ACCOUNTS + bare
    else ""
  }

  /** The stored names win over the entries, and an account named outright over
      the one inside a pinned location. */
  function Applied(entries: map<string, string>, platformId: string): (r: map<string, string>)
  {
    var stored := StoredTarget(platformId);
    var pinned := StoredTarget(Get(entries, "location_id"));
    var account := First(stored.account, First(ExplicitAccount(entries), pinned.account));
    var location := First(stored.location, pinned.location);
    var withAccount := if account != "" then entries["account_id" := account] else entries;
    if location != "" then withAccount["location_id" := location] else withAccount
  }

  /** The parent the next post goes to: the entries, or else the first account
      and the first of its locations that the provider can list. */
  function PublishParent(entries: map<string, string>, accounts: seq<string>, locations: seq<string>)
    : (parent: Option<string>)
  {
    if Get(entries, "account_id") == "" && accounts == [] then None
    else
      var account := if Get(entries, "account_id") != "" then entries["account_id"] else accounts[0];
      if Get(entries, "location_id") == "" && locations == [] then None
      else
        var location := if Get(entries, "location_id") != "" then entries["location_id"] else locations[0];
        Some(V4LocationParent(account, location))
  }

  class Credentials {
    var entries: map<string, string>

    method ApplyStoredTarget(platformId: string)
      modifies this
      ensures entries == Applied(old(entries), platformId)
    {
      var stored := StoredTarget(platformId);
      var pinned := StoredTarget(Get(entries, "location_id"));
      var explicit := StoredTarget(Get(entries, "account_id")).account;
      if explicit == "" {
        var bare := Strip(Strip(Get(entries, "account_id"), SPACES), SLASH);
        if bare != "" && '/' !in bare {
          explicit := ACCOUNTS + bare;
        }
      }
      var account := First(stored.account, First(explicit, pinned.account));
      var location := First(stored.location, pinned.location);
      if account != "" {
        entries := entries["account_id" := account];
      }
      if location != "" {
        entries := entries["location_id" := location];
      }
    }
  }

  // ---------------------------------------------------------------------
  // Finding the location part
  // ---------------------------------------------------------------------

  lemma OccursInTail(s: string, sep: string, j: nat)
    requires s != ""
    ensures Occurs(s[1..], sep, j) <==> Occurs(s, sep, j + 1)
  {
    if j + 1 + |sep| <= |s| {
      assert s[j + 1..j + 1 + |sep|] == s[1..][j..j + |sep|];
    }
  }

  lemma {:induction false} FindAt(s: string, sep: string, i: nat)
    requires Occurs(s, sep, i)
    requires forall j :: 0 <= j < i ==> !Occurs(s, sep, j)
    requires sep != ""
    ensures Find(s, sep) == Some(i)
  {
    if 0 < i {
      assert !Occurs(s, sep, 0);
      OccursInTail(s, sep, i - 1);
      forall j | 0 <= j < i - 1 ensures !Occurs(s[1..], sep, j) {
        OccursInTail(s, sep, j);
      }
      FindAt(s[1..], sep, i - 1);
    }
  }

  lemma {:induction false} SegmentsOfId(id: string)
    requires '/' !in id
    ensures FirstSegment(id) == id && LastSegment(id) == id
  {
    if id != "" {
      SegmentsOfId(id[1..]);
      SegmentsOfId(id[..|id| - 1]);
    }
  }

  lemma {:induction false} LastSegmentAfter(p: string, id: string)
    requires p != "" && p[|p| - 1] == '/' && '/' !in id
    ensures LastSegment(p + id) == id
  {
    var s := p + id;
    if id == "" {
      assert s == p;
    } else {
      assert s[..|s| - 1] == p + id[..|id| - 1];
      LastSegmentAfter(p, id[..|id| - 1]);
    }
  }

  lemma SlashesOfSeparator(k: nat)
    requires k < |BETWEEN|
    ensures BETWEEN[k] == '/' <==> k == 0 || k == 10
  {
  }

  lemma SlashesOfAccounts(k: nat)
    requires k < |ACCOUNTS|
    ensures ACCOUNTS[k] == '/' <==> k == 8
  {
  }

  /** Where the slashes of a full name stand, up to the end of its account. */
  lemma SlashesOfFull(a: string, l: string, i: nat)
    requires '/' !in a && i < 9 + |a|
    ensures Full(a, l)[i] == '/' <==> i == 8
  {
    var s := Full(a, l);
    if i < 9 {
      assert s[i] == ACCOUNTS[i];
      SlashesOfAccounts(i);
    } else {
      assert s[i] == a[i - 9];
    }
  }

  /** The account ends where it should, except for one account id: the word
      `locations` is itself taken for the separator. */
  lemma FindInFull(a: string, l: string)
    requires '/' !in a
    ensures Find(Full(a, l), BETWEEN) == Some(if a == "locations" then 8 else 9 + |a|)
  {
    var s := Full(a, l);
    var end := if a == "locations" then 8 else 9 + |a|;
    if a == "locations" {
      OccursAtAccount(l);
    } else {
      if Occurs(s, BETWEEN, 8) {
        OnlyLocationsOccursAtAccount(a, l);
      }
      assert s[9 + |a|..20 + |a|] == BETWEEN;
    }
    forall j | 0 <= j < end ensures !Occurs(s, BETWEEN, j) {
      SlashesOfFull(a, l, j);
      if Occurs(s, BETWEEN, j) {
        OccursAtSlash(s, j);
      }
    }
    FindAt(s, BETWEEN, end);
  }

  lemma OccursAtSlash(s: string, j: nat)
    requires Occurs(s, BETWEEN, j)
    ensures s[j] == '/'
  {
    SlashesOfSeparator(0);
    assert s[j] == s[j..j + |BETWEEN|][0] == BETWEEN[0];
  }

  lemma OccursAtAccount(l: string)
    ensures Occurs(Full("locations", l), BETWEEN, 8)
  {
    var s := Full("locations", l);
    assert s == "accounts" + ("/" + "locations" + "/") + ("locations/" + l);
    assert "/" + "locations" + "/" == BETWEEN;
    assert s[8..19] == BETWEEN;
  }

  lemma ShortAccount(a: string, l: string)
    requires |a| < 9
    ensures Full(a, l)[18] != '/'
  {
    assert Full(a, l)[18] == BETWEEN[9 - |a|];
    SlashesOfSeparator(9 - |a|);
  }

  lemma OnlyLocationsOccursAtAccount(a: string, l: string)
    requires '/' !in a && Occurs(Full(a, l), BETWEEN, 8)
    ensures a == "locations"
  {
    var s := Full(a, l);
    assert s[8..19] == BETWEEN;
    assert s[18] == s[8..19][10] == BETWEEN[10];
    SlashesOfSeparator(10);
    if 9 < |a| {
      SlashesOfFull(a, l, 18);
    }
    if |a| < 9 {
      ShortAccount(a, l);
    }
    assert |a| == 9;
    assert s[9..18] == a;
    forall k | 0 <= k < 9 ensures a[k] == BETWEEN[1 + k] {
      assert a[k] == s[9 + k] == s[8..19][1 + k];
    }
    assert a == BETWEEN[1..10];
    assert BETWEEN[1..10] == "locations";
  }

  // ---------------------------------------------------------------------
  // Building and splitting
  // ---------------------------------------------------------------------

  lemma IdIsItself(id: string)
    requires '/' !in id
    ensures ResourceId(id) == id && Strip(id, SLASH) == id && !HasPrefix(id, ACCOUNTS)
  {
    SegmentsOfId(id);
    if HasPrefix(id, ACCOUNTS) {
      PrefixedHasSlash(id);
    }
  }

  lemma PrefixedHasSlash(s: string)
    requires HasPrefix(s, ACCOUNTS)
    ensures '/' in s
  {
    SlashesOfAccounts(8);
    assert s[8] == s[..|ACCOUNTS|][8] == ACCOUNTS[8];
  }

  lemma IdOfName(p: string, id: string)
    requires p == ACCOUNTS || p == LOCATIONS
    requires '/' !in id && id != ""
    ensures ResourceId(p + id) == id && Strip(p + id, SLASH) == p + id
  {
    var s := p + id;
    assert s[0] == p[0] && s[|s| - 1] == id[|id| - 1];
    assert ACCOUNTS[0] != '/' && LOCATIONS[0] != '/';
    assert p[|p| - 1] == '/';
    LastSegmentAfter(p, id);
  }

  lemma LocationIsNoAccount(l: string)
    ensures HasPrefix(LOCATIONS + l, LOCATIONS) && (LOCATIONS + l)[|LOCATIONS|..] == l
    ensures !HasPrefix(LOCATIONS + l, ACCOUNTS)
  {
    assert (LOCATIONS + l)[0] == LOCATIONS[0] == 'l';
    assert ACCOUNTS[0] == 'a';
  }

  /** Every accepted spelling of an account and a location gives one parent. */
  lemma SpellingsAgree(a: string, l: string)
    requires '/' !in a && '/' !in l
    ensures V4LocationParent(a, l) == Full(a, l)
    ensures l != "" ==> V4LocationParent(a, LOCATIONS + l) == Full(a, l)
    ensures a != "" ==> V4LocationParent(ACCOUNTS + a, l) == Full(a, l)
    ensures a != "" && l != "" ==> V4LocationParent(ACCOUNTS + a, LOCATIONS + l) == Full(a, l)
  {
    IdIsItself(a);
    IdIsItself(l);
    if a != "" {
      IdOfName(ACCOUNTS, a);
    }
    if l != "" {
      IdOfName(LOCATIONS, l);
    }
    LocationIsNoAccount(l);
  }

  lemma StripFull(a: string, l: string)
    requires '/' !in l && l != ""
    ensures Strip(Full(a, l), SLASH) == Full(a, l)
    ensures HasPrefix(Full(a, l), ACCOUNTS)
    ensures !IsSpace(l[|l| - 1]) ==> Strip(Full(a, l), SPACES) == Full(a, l)
    ensures IsSpace(l[|l| - 1]) ==> |Strip(Full(a, l), SPACES)| < |Full(a, l)|
  {
    var s := Full(a, l);
    assert s[0] == ACCOUNTS[0] == 'a';
    assert s[|s| - 1] == l[|l| - 1];
    assert !IsSpace('a');
  }

  lemma PartsOfFull(a: string, l: string)
    ensures Full(a, l)[..9 + |a|] == ACCOUNTS + a
    ensures Full(a, l)[9 + |a| + |BETWEEN|..] == l
  {
  }

  predicate EndsInSpace(s: string) {
    s != "" && IsSpace(s[|s| - 1])
  }

  /** What splitting a stored name can never give back: more than it holds. */
  lemma TargetFits(platformId: string)
    ensures var t := StoredTarget(platformId);
            t.account != "" && t.location != ""
            ==> |t.account| + 1 + |t.location| <= |Strip(platformId, SPACES)|
    ensures StoredTarget(platformId).location != LOCATIONS
  {
  }

  lemma SplitAfterAccount(a: string, l: string)
    requires '/' !in a && '/' !in l && a != "locations" && l != "" && !EndsInSpace(l)
    ensures StoredTarget(Full(a, l)) == Target(ACCOUNTS + a, LOCATIONS + l)
  {
    StripFull(a, l);
    FindInFull(a, l);
    SegmentsOfId(l);
    PartsOfFull(a, l);
    assert HasPrefix(ACCOUNTS + a, ACCOUNTS);
  }

  /**
   * Splitting the parent built from two ids gives both names back exactly when
   * the account is not called `locations` and the location is not empty and
   * does not end in whitespace.
   */
  lemma RoundTripIff(a: string, l: string)
    requires '/' !in a && '/' !in l
    ensures StoredTarget(V4LocationParent(a, l)) == Target(ACCOUNTS + a, LOCATIONS + l)
            <==> a != "locations" && l != "" && !EndsInSpace(l)
  {
    SpellingsAgree(a, l);
    TargetFits(Full(a, l));
    if l == "" {
      assert LOCATIONS + l == LOCATIONS;
    } else if EndsInSpace(l) {
      StripFull(a, l);
    } else if a == "locations" {
      SplitAtAccount(l);
    } else {
      SplitAfterAccount(a, l);
    }
  }

  lemma SplitAtAccount(l: string)
    requires '/' !in l && l != "" && !EndsInSpace(l)
    ensures StoredTarget(Full("locations", l)) == Target("", LOCATIONS + "locations")
  {
    var s := Full("locations", l);
    StripFull("locations", l);
    FindInFull("locations", l);
    PartsAtAccount(l);
    assert !HasPrefix("accounts", ACCOUNTS);
  }

  lemma PartsAtAccount(l: string)
    ensures Full("locations", l)[..8] == "accounts"
    ensures FirstSegment(Full("locations", l)[8 + |BETWEEN|..]) == "locations"
  {
    var s := Full("locations", l);
    OccursAtAccount(l);
    assert ACCOUNTS[..8] == "accounts";
    assert s[..8] == ACCOUNTS[..8];
    assert s[8 + |BETWEEN|..] == LOCATIONS + l;
    assert LOCATIONS + l == "locations" + "/" + l;
    FirstSegmentBefore("locations", l);
  }

  lemma {:induction false} FirstSegmentBefore(id: string, rest: string)
    requires '/' !in id
    ensures FirstSegment(id + "/" + rest) == id
  {
    var s := id + "/" + rest;
    if id != "" {
      assert s[1..] == id[1..] + "/" + rest;
      FirstSegmentBefore(id[1..], rest);
    }
  }

  /** Given a full parent as the location, the account is not looked at. */
  lemma FullParentStandsIff(x: string, a: string, l: string)
    requires '/' !in a && '/' !in l
    ensures V4LocationParent(x, Full(a, l)) == Full(a, l) <==> a != "locations" && l != ""
  {
    var s := Full(a, l);
    assert s[0] == ACCOUNTS[0] == 'a';
    if l == "" {
      assert s[|s| - 1] == BETWEEN[10];
      SlashesOfSeparator(10);
      ParentOfSlashed(x, s);
    } else {
      StripFull(a, l);
      FindInFull(a, l);
      if a == "locations" {
        PartsAtAccount(l);
        assert |V4LocationParent(x, s)| == |"accounts"| + |BETWEEN| + |"locations"| < |s|;
      } else {
        SegmentsOfId(l);
        PartsOfFull(a, l);
      }
    }
  }

  /** The parent of a name that ends in a slash is a different name. */
  lemma ParentOfSlashed(x: string, s: string)
    requires s != "" && s[0] == 'a' && s[|s| - 1] == '/'
    ensures V4LocationParent(x, s) != s
  {
    var t := Strip(s, SLASH);
    if HasPrefix(t, ACCOUNTS) && Find(t, BETWEEN).Some? {
      assert |V4LocationParent(x, s)| <= |t| < |s|;
    } else {
      assert Strip(t, SLASH) == t;
      var id := ResourceId(t);
      assert id != "" && id[|id| - 1] == t[|t| - 1] != '/';
      var parent := V4LocationParent(x, s);
      assert parent[|parent| - 1] == id[|id| - 1];
    }
  }

  // ---------------------------------------------------------------------
  // Pointing credentials at a stored target
  // ---------------------------------------------------------------------

  /** An account and a location that survive being stored. */
  predicate Storable(a: string, l: string) {
    && '/' !in a && a != "" && a != "locations"
    && '/' !in l && l != "" && !EndsInSpace(l)
  }

  /** Whatever the credentials pinned before, the stored target is published to. */
  lemma StoredTargetWins(entries: map<string, string>, accounts: seq<string>, locations: seq<string>,
                         a: string, l: string)
    requires Storable(a, l)
    ensures PublishParent(Applied(entries, Full(a, l)), accounts, locations) == Some(Full(a, l))
  {
    RoundTripIff(a, l);
    SpellingsAgree(a, l);
    assert StoredTarget(Full(a, l)) == Target(ACCOUNTS + a, LOCATIONS + l);
    NamesAreEntered(entries, Full(a, l), ACCOUNTS + a, LOCATIONS + l);
    PublishedTo(Applied(entries, Full(a, l)), accounts, locations, a, l);
  }

  /** The names that win are entered. */
  lemma NamesAreEntered(entries: map<string, string>, platformId: string, account: string, location: string)
    requires account != "" && location != ""
    requires var stored, pinned := StoredTarget(platformId), StoredTarget(Get(entries, "location_id"));
      && account == First(stored.account, First(ExplicitAccount(entries), pinned.account))
      && location == First(stored.location, pinned.location)
    ensures Get(Applied(entries, platformId), "account_id") == account
    ensures Get(Applied(entries, platformId), "location_id") == location
  {
  }

  lemma PublishedTo(entries: map<string, string>, accounts: seq<string>, locations: seq<string>, a: string, l: string)
    requires Storable(a, l)
    requires Get(entries, "account_id") == ACCOUNTS + a && Get(entries, "location_id") == LOCATIONS + l
    ensures PublishParent(entries, accounts, locations) == Some(Full(a, l))
  {
    SpellingsAgree(a, l);
  }

  /** The names differ where the account begins. */
  lemma AccountsDiffer(l: string, k: string)
    ensures Full("0", k) != Full("locations", l)
  {
    assert Full("0", k)[9] == '0';
    assert Full("locations", l)[9] == "locations"[0] == 'l';
  }

  lemma NothingPinned()
    ensures StoredTarget("") == Target("", "") && ExplicitAccount(map[]) == ""
  {
  }

  lemma OnlyALocationIsStored(l: string)
    requires '/' !in l && l != "" && !EndsInSpace(l)
    ensures Applied(map[], Full("locations", l)) == map["location_id" := LOCATIONS + "locations"]
  {
    SplitAtAccount(l);
    NothingPinned();
  }

  /** With only a location entered, the account is the first one listed. */
  lemma OnlyALocationEntered(name: string, account: string)
    requires name != ""
    ensures PublishParent(map["location_id" := name], [account], []) == Some(V4LocationParent(account, name))
  {
  }

  /** The account called `locations` is the one exception: its posts go to
      another account whenever the credentials name none. */
  lemma LocationsAccountIsLost(l: string, other: string)
    requires '/' !in l && l != "" && !EndsInSpace(l)
    requires '/' !in other && other != ""
    ensures PublishParent(Applied(map[], Full("locations", l)), [ACCOUNTS + other], [])
            == Some(Full(other, "locations"))
  {
    OnlyALocationIsStored(l);
    var word := "locations";
    assert '/' !in word;
    OnlyALocationEntered(LOCATIONS + word, ACCOUNTS + other);
    SpellingsAgree(other, word);
  }

  lemma StoredTargetWinsIff(a: string, l: string)
    requires '/' !in a && a != "" && '/' !in l && l != "" && !EndsInSpace(l)
    ensures (forall entries, accounts, locations ::
               PublishParent(Applied(entries, Full(a, l)), accounts, locations) == Some(Full(a, l)))
            <==> a != "locations"
  {
    if a == "locations" {
      LocationsAccountIsLost(l, "0");
      AccountsDiffer(l, "locations");
    } else {
      forall entries, accounts, locations
        ensures PublishParent(Applied(entries, Full(a, l)), accounts, locations) == Some(Full(a, l))
      {
        StoredTargetWins(entries, accounts, locations, a, l);
      }
    }
  }

  /** A row that stores only a location keeps it, and takes the account from a
      full name pinned in the credentials when they name no account. */
  lemma LegacyRowBorrowsPinnedAccount(entries: map<string, string>, accounts: seq<string>,
                                      locations: seq<string>, a: string, pinned: string, l: string)
    requires Storable(a, pinned) && Storable(a, l)
    requires Get(entries, "account_id") == "" && Get(entries, "location_id") == Full(a, pinned)
    ensures PublishParent(Applied(entries, LOCATIONS + l), accounts, locations) == Some(Full(a, l))
  {
    LegacyTarget(l);
    RoundTripIff(a, pinned);
    SpellingsAgree(a, pinned);
    NoExplicitAccount(entries);
    NamesAreEntered(entries, LOCATIONS + l, ACCOUNTS + a, LOCATIONS + l);
    PublishedTo(Applied(entries, LOCATIONS + l), accounts, locations, a, l);
  }

  lemma NoExplicitAccount(entries: map<string, string>)
    requires Get(entries, "account_id") == ""
    ensures ExplicitAccount(entries) == ""
  {
  }

  lemma LegacyTarget(l: string)
    requires '/' !in l && l != "" && !EndsInSpace(l)
    ensures StoredTarget(LOCATIONS + l) == Target("", LOCATIONS + l)
  {
    var s := LOCATIONS + l;
    assert Strip(s, SPACES) == s by {
      assert s[0] == LOCATIONS[0] == 'l' && s[|s| - 1] == l[|l| - 1];
      assert !IsSpace('l');
    }
    IdOfName(LOCATIONS, l);
    LocationIsNoAccount(l);
    SegmentsOfId(l);
  }

  // ---------------------------------------------------------------------
  // The account of a row that stores only a location
  // ---------------------------------------------------------------------

  lemma {:induction false} FindNothing(s: string, sep: string)
    requires forall j: nat :: !Occurs(s, sep, j)
    ensures Find(s, sep) == None
  {
    assert !Occurs(s, sep, 0);
    if s != "" {
      forall j: nat
        ensures !Occurs(s[1..], sep, j)
      {
        OccursInTail(s, sep, j);
        assert !Occurs(s, sep, j + 1);
      }
      FindNothing(s[1..], sep);
    }
  }

  /** An account id that survives trimming. */
  predicate Trimmed(id: string) {
    '/' !in id && id != "" && !IsSpace(id[0]) && !EndsInSpace(id)
  }

  lemma NoSeparatorInAccount(a: string)
    requires '/' !in a
    ensures Find(ACCOUNTS + a, BETWEEN) == None
  {
    var s := ACCOUNTS + a;
    forall j: nat
      ensures !Occurs(s, BETWEEN, j)
    {
      if Occurs(s, BETWEEN, j) {
        SeparatorHasTwoSlashes(s, j);
        NoTwoSlashes(a, j);
      }
    }
    FindNothing(s, BETWEEN);
  }

  lemma SeparatorHasTwoSlashes(s: string, j: nat)
    requires Occurs(s, BETWEEN, j)
    ensures s[j] == '/' && s[j + 10] == '/'
  {
    OccursAtSlash(s, j);
    SlashesOfSeparator(10);
    assert s[j + 10] == s[j..j + |BETWEEN|][10] == BETWEEN[10];
  }

  lemma NoTwoSlashes(a: string, j: nat)
    requires '/' !in a && j + 10 < 9 + |a|
    ensures (ACCOUNTS + a)[j] != '/' || (ACCOUNTS + a)[j + 10] != '/'
  {
    OneSlashInAccount(a, j);
    OneSlashInAccount(a, j + 10);
  }

  lemma OneSlashInAccount(a: string, i: nat)
    requires '/' !in a && i < 9 + |a|
    ensures (ACCOUNTS + a)[i] == '/' <==> i == 8
  {
    if i < 9 {
      SlashesOfAccounts(i);
    } else {
      assert (ACCOUNTS + a)[i] == a[i - 9];
    }
  }

  lemma NameOfAccount(a: string)
    requires Trimmed(a)
    ensures StoredTarget(ACCOUNTS + a) == Target(ACCOUNTS + a, "")
  {
    var s := ACCOUNTS + a;
    assert Strip(s, SPACES) == s by {
      assert s[0] == ACCOUNTS[0] == 'a' && s[|s| - 1] == a[|a| - 1];
      assert !IsSpace('a');
    }
    IdOfName(ACCOUNTS, a);
    NoSeparatorInAccount(a);
    assert s[|ACCOUNTS|..] == a;
    assert !HasPrefix(s, LOCATIONS) by {
      assert s[0] == ACCOUNTS[0] == 'a' && LOCATIONS[0] == 'l';
    }
  }

  lemma BareAccount(a: string)
    requires Trimmed(a)
    ensures StoredTarget(a) == Target("", "") && Strip(Strip(a, SPACES), SLASH) == a
  {
    IdIsItself(a);
    assert Strip(a, SPACES) == a;
    assert !HasPrefix(a, LOCATIONS) by {
      assert LOCATIONS[9] == '/';
      if HasPrefix(a, LOCATIONS) {
        PrefixedHasSlashToo(a);
      }
    }
  }

  lemma PrefixedHasSlashToo(s: string)
    requires HasPrefix(s, LOCATIONS)
    ensures '/' in s
  {
    assert LOCATIONS[9] == '/';
    assert s[9] == s[..|LOCATIONS|][9] == LOCATIONS[9];
  }

  lemma NamedAccount(entries: map<string, string>, a: string)
    requires Trimmed(a) && (Get(entries, "account_id") == a || Get(entries, "account_id") == ACCOUNTS + a)
    ensures ExplicitAccount(entries) == ACCOUNTS + a
  {
    NameOfAccount(a);
    BareAccount(a);
  }

  /** An account named in the credentials, bare or as a resource name, wins over the account of a
      full name pinned there. */
  lemma NamedAccountBeatsPinned(entries: map<string, string>, accounts: seq<string>, locations: seq<string>,
                                a: string, b: string, pinned: string, l: string)
    requires Trimmed(a) && Storable(a, l) && Storable(b, pinned)
    requires Get(entries, "account_id") == a || Get(entries, "account_id") == ACCOUNTS + a
    requires Get(entries, "location_id") == Full(b, pinned)
    ensures PublishParent(Applied(entries, LOCATIONS + l), accounts, locations) == Some(Full(a, l))
  {
    LegacyTarget(l);
    NamedAccount(entries, a);
    NamesAreEntered(entries, LOCATIONS + l, ACCOUNTS + a, LOCATIONS + l);
    PublishedTo(Applied(entries, LOCATIONS + l), accounts, locations, a, l);
  }

  /** A row that stores only an account takes the location pinned in the credentials. */
  lemma AccountRowKeepsPinnedLocation(entries: map<string, string>, accounts: seq<string>, locations: seq<string>,
                                      a: string, b: string, pinned: string)
    requires Trimmed(a) && Storable(a, pinned) && Storable(b, pinned)
    requires Get(entries, "location_id") == Full(b, pinned)
    ensures PublishParent(Applied(entries, ACCOUNTS + a), accounts, locations) == Some(Full(a, pinned))
  {
    NameOfAccount(a);
    RoundTripIff(b, pinned);
    SpellingsAgree(b, pinned);
    assert StoredTarget(Full(b, pinned)) == Target(ACCOUNTS + b, LOCATIONS + pinned);
    NamesAreEntered(entries, ACCOUNTS + a, ACCOUNTS + a, LOCATIONS + pinned);
    PublishedTo(Applied(entries, ACCOUNTS + a), accounts, locations, a, pinned);
  }

  /** With nothing stored or entered, the first account and the first of its locations listed are
      used, and without one there is nowhere to publish. */
  lemma NothingEntered(entries: map<string, string>, accounts: seq<string>, locations: seq<string>)
    requires Get(entries, "account_id") == "" && Get(entries, "location_id") == ""
    ensures Applied(entries, "") == entries
    ensures PublishParent(entries, accounts, locations)
            == if accounts == [] || locations == [] then None else Some(V4LocationParent(accounts[0], locations[0]))
  {
    NothingPinned();
    NoExplicitAccount(entries);
  }
}
