/**
 * The times manager's `create` flow: after the modal is submitted, find the
 * member, pick the category of their most senior grade role and create the
 * channel `times-<name>` under it.
 */
module TimesManager {
  import opened Wrappers
  import opened Strings
  import Sorting

  const ALUMNUS_ROLE := "卒業生"
  const CHANNEL_TYPE_GUILD_CATEGORY := 4
  const TIMES_PREFIX := "times-"

  // ---------------------------------------------------------------------
  // Role filter
  // ---------------------------------------------------------------------

  /** `/^[0-9]{2}B$/`: exactly two decimal digits followed by B. */
  predicate IsYearRoleName(name: string) {
    |name| == 3 && IsDigit(name[0]) && IsDigit(name[1]) && name[2] == 'B'
  }

  /** The filter of the role cache: the alumnus role or a year role. */
  predicate IsGradeRoleName(name: string) {
    name == ALUMNUS_ROLE || IsYearRoleName(name)
  }

  /** `roles.cache.filter(...).map((role) => role.name)`, in cache order. */
  function CandidateRoles(roleNames: seq<string>): (r: seq<string>)
    ensures forall n :: n in r <==> n in roleNames && IsGradeRoleName(n)
    ensures |r| <= |roleNames|
  {
    if roleNames == [] then []
    else (if IsGradeRoleName(roleNames[0]) then [roleNames[0]] else []) + CandidateRoles(roleNames[1..])
  }

  // ---------------------------------------------------------------------
  // Array.prototype.sort's default order
  // ---------------------------------------------------------------------

  /**
   * The default comparison of `Array.prototype.sort`: lexicographic by code
   * unit. Grade role names are made of BMP characters, for which a code point
   * is a single UTF-16 code unit.
   */
  function CompareCodeUnits(x: string, y: string): (r: int)
    ensures -1 <= r <= 1
  {
    if x == [] && y == [] then 0
    else if x == [] then -1
    else if y == [] then 1
    else if x[0] < y[0] then -1
    else if x[0] > y[0] then 1
    else CompareCodeUnits(x[1..], y[1..])
  }

  lemma {:induction false} CompareSwaps(x: string, y: string)
    ensures CompareCodeUnits(x, y) == -CompareCodeUnits(y, x)
  {
    if x != [] && y != [] && x[0] == y[0] {
      CompareSwaps(x[1..], y[1..]);
    }
  }

  /** Only equal strings compare equal. */
  lemma {:induction false} CompareZeroIffEqual(x: string, y: string)
    ensures CompareCodeUnits(x, y) == 0 <==> x == y
  {
    if x != [] && y != [] && x[0] == y[0] {
      CompareZeroIffEqual(x[1..], y[1..]);
      if x[1..] == y[1..] {
        assert x == [x[0]] + x[1..] && y == [y[0]] + y[1..];
      }
    }
  }

  lemma {:induction false} CompareTransitive(x: string, y: string, z: string)
    requires CompareCodeUnits(x, y) <= 0 && CompareCodeUnits(y, z) <= 0
    ensures CompareCodeUnits(x, z) <= 0
  {
    if x != [] && y != [] && z != [] && x[0] == y[0] && y[0] == z[0] {
      CompareTransitive(x[1..], y[1..], z[1..]);
    }
  }

  /** The default sort order is a total order on strings. */
  lemma CompareCodeUnitsIsTotalPreorder()
    ensures Sorting.IsTotalPreorder(CompareCodeUnits)
  {
    forall x: string, y: string
      ensures CompareCodeUnits(x, y) <= 0 || CompareCodeUnits(y, x) <= 0
    {
      CompareSwaps(x, y);
    }
    forall x: string, y: string, z: string | CompareCodeUnits(x, y) <= 0 && CompareCodeUnits(y, z) <= 0
      ensures CompareCodeUnits(x, z) <= 0
    {
      CompareTransitive(x, y, z);
    }
  }

  /** The greatest name in code-unit order. */
  function Greatest(names: seq<string>): (g: string)
    requires |names| > 0
    ensures g in names
    ensures forall n :: n in names ==> CompareCodeUnits(n, g) <= 0
  {
    if |names| == 1 then
      CompareZeroIffEqual(names[0], names[0]);
      names[0]
    else
      var rest := Greatest(names[1..]);
      if CompareCodeUnits(names[0], rest) <= 0 then
        assert forall n :: n in names ==> n == names[0] || n in names[1..];
        rest
      else
        CompareSwaps(names[0], rest);
        CompareCodeUnitsIsTotalPreorder();
        assert forall n :: n in names ==> n == names[0] || n in names[1..];
        names[0]
  }

  /** Only one name is at least as great as all the others. */
  lemma GreatestIsUnique(names: seq<string>, m: string)
    requires m in names
    requires forall n :: n in names ==> CompareCodeUnits(n, m) <= 0
    ensures m == Greatest(names)
  {
    var g := Greatest(names);
    CompareSwaps(g, m);
    CompareZeroIffEqual(g, m);
  }

  /** The last of the candidates put in the default order is the greatest. */
  lemma LastOfSortedIsGreatest(sorted: seq<string>, candidates: seq<string>)
    requires |sorted| > 0 && |candidates| > 0 && multiset(sorted) == multiset(candidates)
    requires Sorting.SortedBy(sorted, CompareCodeUnits)
    ensures sorted[|sorted| - 1] == Greatest(candidates)
  {
    var top := sorted[|sorted| - 1];
    forall n | n in candidates
      ensures CompareCodeUnits(n, top) <= 0
    {
      assert n in multiset(sorted);
      var k :| 0 <= k < |sorted| && sorted[k] == n;
      if k < |sorted| - 1 {
        assert Sorting.SortedRange(sorted, CompareCodeUnits, 0, |sorted|);
      } else {
        CompareZeroIffEqual(n, n);
      }
    }
    assert top in multiset(candidates);
    GreatestIsUnique(candidates, top);
  }

  /**
   * `roles.sort().reverse()` and `"times-" + roles[0]`: the category is named
   * after the greatest candidate.
   */
  method SelectCategoryName(candidates: seq<string>) returns (categoryName: string)
    requires |candidates| > 0
    ensures categoryName == TIMES_PREFIX + Greatest(candidates)
  {
    var roles := new string[|candidates|](i requires 0 <= i < |candidates| => candidates[i]);
    assert roles[..] == candidates;
    Sorting.InsertionSort(roles, CompareCodeUnits);
    ghost var sorted := roles[..];
    CompareCodeUnitsIsTotalPreorder();
    LastOfSortedIsGreatest(sorted, candidates);
    Sorting.Reverse(roles);
    Sorting.ReversedIndex(sorted, 0);
    categoryName := TIMES_PREFIX + roles[0];
  }

  /** The year of a year role, read from its two digits. */
  function RoleYear(name: string): nat
    requires IsYearRoleName(name)
  {
    10 * DigitValue(name[0]) + DigitValue(name[1])
  }

  /** Between year roles, the default sort order is the order of their years. */
  lemma YearRolesCompareByYear(x: string, y: string)
    requires IsYearRoleName(x) && IsYearRoleName(y)
    ensures CompareCodeUnits(x, y) <= 0 <==> RoleYear(x) <= RoleYear(y)
  {
    assert x[1..][1..][1..] == [] && y[1..][1..][1..] == [];
  }

  /** The alumnus role, when held, outranks every year role: its first code unit exceeds every digit. */
  lemma AlumnusWins(candidates: seq<string>)
    requires |candidates| > 0
    requires forall n :: n in candidates ==> IsGradeRoleName(n)
    requires ALUMNUS_ROLE in candidates
    ensures Greatest(candidates) == ALUMNUS_ROLE
  {
    forall n | n in candidates
      ensures CompareCodeUnits(n, ALUMNUS_ROLE) <= 0
    {
      if n == ALUMNUS_ROLE {
        CompareZeroIffEqual(n, n);
      } else {
        assert n[0] <= '9' < ALUMNUS_ROLE[0];
      }
    }
    GreatestIsUnique(candidates, ALUMNUS_ROLE);
  }

  /** Without the alumnus role, the latest year wins. */
  lemma LatestYearWins(candidates: seq<string>)
    requires |candidates| > 0
    requires forall n :: n in candidates ==> IsGradeRoleName(n)
    requires ALUMNUS_ROLE !in candidates
    ensures IsYearRoleName(Greatest(candidates))
    ensures forall n :: n in candidates ==> IsYearRoleName(n) && RoleYear(n) <= RoleYear(Greatest(candidates))
  {
    var g := Greatest(candidates);
    forall n | n in candidates
      ensures IsYearRoleName(n) && RoleYear(n) <= RoleYear(g)
    {
      YearRolesCompareByYear(n, g);
    }
  }

  // ---------------------------------------------------------------------
  // createChannel
  // ---------------------------------------------------------------------

  datatype Channel = Channel(id: string, channelType: int, name: string)

  /** What the flow reads from the guild: each member's role names, and the channel cache. */
  datatype Guild = Guild(memberRoles: map<string, seq<string>>, channels: seq<Channel>)

  datatype CreateOutcome =
    | UserNotFound
    | NoGradeRole
    | CategoryNotFound(categoryName: string)
    | Created(channelName: string, parentId: string)

  predicate IsCategoryNamed(c: Channel, name: string) {
    c.channelType == CHANNEL_TYPE_GUILD_CATEGORY && c.name == name
  }

  /** `channels.cache.find(...)`: the first category channel with the name. */
  function FindCategory(channels: seq<Channel>, name: string): (r: Option<Channel>)
    ensures r.None? <==> forall k :: 0 <= k < |channels| ==> !IsCategoryNamed(channels[k], name)
    ensures r.Some? ==>
      exists k :: (0 <= k < |channels| && channels[k] == r.value && IsCategoryNamed(r.value, name)
                   && forall j :: 0 <= j < k ==> !IsCategoryNamed(channels[j], name))
  {
    if channels == [] then None
    else if IsCategoryNamed(channels[0], name) then Some(channels[0])
    else
      var r := FindCategory(channels[1..], name);
      assert forall k :: 1 <= k < |channels| ==> channels[k] == channels[1..][k - 1];
      r
  }

  /**
   * The steps of `createChannel` after the modal is submitted. `guild` is
   * absent outside a server, `userId` is the submitting user and
   * `channelName` the text typed into the modal.
   */
  method CreateChannel(guild: Option<Guild>, userId: string, channelName: string)
    returns (announcement: string, outcome: CreateOutcome)
    ensures announcement == AnnouncementText(channelName)
    ensures outcome.Created? ==>
      |ANNOUNCEMENT_OPEN| + |outcome.channelName| <= |announcement|
      && announcement[|ANNOUNCEMENT_OPEN|..|ANNOUNCEMENT_OPEN| + |outcome.channelName|] == outcome.channelName
    ensures guild.None? || userId !in guild.value.memberRoles <==> outcome == UserNotFound
    ensures guild.Some? && userId in guild.value.memberRoles ==>
      var candidates := CandidateRoles(guild.value.memberRoles[userId]);
      && (candidates == [] <==> outcome == NoGradeRole)
      && (candidates != [] ==>
            var categoryName := TIMES_PREFIX + Greatest(candidates);
            match FindCategory(guild.value.channels, categoryName)
            case None => outcome == CategoryNotFound(categoryName)
            case Some(category) => outcome == Created(TIMES_PREFIX + channelName, category.id))
  {
    announcement := AnnouncementText(channelName);
    if guild.None? || userId !in guild.value.memberRoles {
      return announcement, UserNotFound;
    }
    var roles := CandidateRoles(guild.value.memberRoles[userId]);
    if |roles| == 0 {
      return announcement, NoGradeRole;
    }
    var categoryName := SelectCategoryName(roles);
    var category := FindCategory(guild.value.channels, categoryName);
    if category.None? {
      return announcement, CategoryNotFound(categoryName);
    }
    outcome := Created(TIMES_PREFIX + channelName, category.value.id);
  }

  /** A created channel sits under a category named after one of the member's grade roles. */
  lemma CreatedUnderGradeCategory(guild: Guild, userId: string, category: Channel)
    requires userId in guild.memberRoles
    requires CandidateRoles(guild.memberRoles[userId]) != []
    requires FindCategory(guild.channels, TIMES_PREFIX + Greatest(CandidateRoles(guild.memberRoles[userId])))
             == Some(category)
    ensures category in guild.channels && category.channelType == CHANNEL_TYPE_GUILD_CATEGORY
    ensures exists role :: role in guild.memberRoles[userId] && IsGradeRoleName(role)
                           && category.name == TIMES_PREFIX + role
  {
    var role := Greatest(CandidateRoles(guild.memberRoles[userId]));
    assert role in guild.memberRoles[userId] && IsGradeRoleName(role);
  }

  const NOT_FOUND_USER_TEXT := "ユーザーが見つかりませんでした。"
  const NO_GRADE_ROLE_TEXT := "学年ロールが見つかりませんでした。"
  const CATEGORY_OPEN := "カテゴリー名「"
  const CATEGORY_CLOSE := "」が見つかりませんでした。カテゴリーを作成する必要があります。"

  const ANNOUNCEMENT_OPEN := "チャンネル名: `"
  const ANNOUNCEMENT_CLOSE := "` でチャンネルを作成します"

  /** The first reply, sent before any lookup: it quotes the name the channel will get. */
  function AnnouncementText(channelName: string): (r: string)
    ensures var name := TIMES_PREFIX + channelName;
      && |ANNOUNCEMENT_OPEN| + |name| + |ANNOUNCEMENT_CLOSE| == |r|
      && r[..|ANNOUNCEMENT_OPEN|] == ANNOUNCEMENT_OPEN
      && r[|ANNOUNCEMENT_OPEN|..|ANNOUNCEMENT_OPEN| + |name|] == name
      && r[|ANNOUNCEMENT_OPEN| + |name|..] == ANNOUNCEMENT_CLOSE
  {
    var name := TIMES_PREFIX + channelName;
    var r := ANNOUNCEMENT_OPEN + name + ANNOUNCEMENT_CLOSE;
    assert r[..|ANNOUNCEMENT_OPEN|] == ANNOUNCEMENT_OPEN;
    assert r[|ANNOUNCEMENT_OPEN|..|ANNOUNCEMENT_OPEN| + |name|] == name;
    assert r[|ANNOUNCEMENT_OPEN| + |name|..] == ANNOUNCEMENT_CLOSE;
    r
  }

  /**
   * The content `editReply` replaces the first reply with when the flow stops early. On success
   * the first reply is instead edited to name the new channel, which is not modelled here.
   */
  function FailureText(outcome: CreateOutcome): (r: Option<string>)
    ensures r.None? <==> outcome.Created?
    ensures outcome == UserNotFound ==> r == Some(NOT_FOUND_USER_TEXT)
    ensures outcome == NoGradeRole ==> r == Some(NO_GRADE_ROLE_TEXT)
    ensures outcome.CategoryNotFound? ==>
      var name := outcome.categoryName;
      && |CATEGORY_OPEN| + |name| + |CATEGORY_CLOSE| == |r.value|
      && r.value[..|CATEGORY_OPEN|] == CATEGORY_OPEN
      && r.value[|CATEGORY_OPEN|..|CATEGORY_OPEN| + |name|] == name
      && r.value[|CATEGORY_OPEN| + |name|..] == CATEGORY_CLOSE
  {
    match outcome
    case UserNotFound => Some(NOT_FOUND_USER_TEXT)
    case NoGradeRole => Some(NO_GRADE_ROLE_TEXT)
    case CategoryNotFound(name) =>
      var text := CATEGORY_OPEN + name + CATEGORY_CLOSE;
      assert text[..|CATEGORY_OPEN|] == CATEGORY_OPEN;
      assert text[|CATEGORY_OPEN|..|CATEGORY_OPEN| + |name|] == name;
      assert text[|CATEGORY_OPEN| + |name|..] == CATEGORY_CLOSE;
      Some(text)
    case Created(_, _) => None
  }
}
