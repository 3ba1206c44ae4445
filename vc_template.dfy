/**
 * The embed the voice-channel notifier posts: a title, a description and a
 * colour chosen by the kind of change, the current member count and the
 * user's avatar. The time field, read from the clock, is not modelled.
 */
module VcTemplate {
  import opened Wrappers
  import opened Strings

  datatype NotificationKind = Join | Leave | Move

  datatype EmbedField = EmbedField(name: string, value: string, inline: bool)

  datatype Embed = Embed(title: string, description: string, fields: seq<EmbedField>,
                         imageUrl: string, color: int)

  const UNKNOWN_USERNAME := "unknown"
  const MEMBER_COUNT_FIELD := "現在の参加人数"
  const USER_IMAGE_NOT_FOUND_URL :=
    "https://images.unsplash.com/photo-1614680376739-414d95ff43df?ixlib=rb-4.0.3&ixid=MnwxMjA3fDB8MHxwaG90by1wYWdlfHx8fGVufDB8fHx8&auto=format&fit=crop&w=1374&q=80"

  const JOIN_TITLE := "VC参加通知"
  const LEAVE_TITLE := "VC退出通知"
  const MOVE_TITLE := "VC移動通知"

  const JOIN_COLOR := 0xff0000
  const LEAVE_COLOR := 0x0000ff
  const MOVE_COLOR := 0x00ff00

  /** Reads the kind back from a title: the inverse of the title choice. */
  function KindOfTitle(title: string): Option<NotificationKind> {
    if title == JOIN_TITLE then Some(Join)
    else if title == LEAVE_TITLE then Some(Leave)
    else if title == MOVE_TITLE then Some(Move)
    else None
  }

  /** Reads the kind back from a colour. */
  function KindOfColor(color: int): Option<NotificationKind> {
    if color == JOIN_COLOR then Some(Join)
    else if color == LEAVE_COLOR then Some(Leave)
    else if color == MOVE_COLOR then Some(Move)
    else None
  }

  /** The verb phrase that ends the description. */
  function ActionPhrase(kind: NotificationKind): string {
    match kind
    case Join => " に参加しました"
    case Leave => " から退出しました"
    case Move => " に移動しました"
  }

  /**
   * `NOTIFICATION_TEMPLATE`. An absent display name is shown as "unknown" and
   * an absent avatar is replaced by the placeholder image.
   */
  function NotificationTemplate(kind: NotificationKind, username: Option<string>, channelName: string,
                                memberCount: nat, avatarUrl: Option<string>): (e: Embed)
    ensures KindOfTitle(e.title) == Some(kind) && KindOfColor(e.color) == Some(kind)
    ensures var shown := if username.Some? then username.value else UNKNOWN_USERNAME;
      && (kind == Join ==> e.description == shown + " が " + channelName + " に参加しました")
      && (kind == Leave ==> e.description == shown + " が " + channelName + " から退出しました")
      && (kind == Move ==> e.description == shown + " が " + channelName + " に移動しました")
    ensures |e.fields| == 1 && e.fields[0].name == MEMBER_COUNT_FIELD && e.fields[0].inline
    ensures AllDigits(e.fields[0].value) && DecimalValue(e.fields[0].value) == memberCount
    ensures avatarUrl.Some? ==> e.imageUrl == avatarUrl.value
    ensures avatarUrl.None? ==> e.imageUrl == USER_IMAGE_NOT_FOUND_URL
  {
    var shown := if username.Some? then username.value else UNKNOWN_USERNAME;
    var title := match kind case Join => JOIN_TITLE case Leave => LEAVE_TITLE case Move => MOVE_TITLE;
    var color := match kind case Join => JOIN_COLOR case Leave => LEAVE_COLOR case Move => MOVE_COLOR;
    var description := shown + " が " + channelName + ActionPhrase(kind);
    DecimalRoundTrip(memberCount);
    Embed(title, description, [EmbedField(MEMBER_COUNT_FIELD, NatToString(memberCount), true)],
          if avatarUrl.Some? then avatarUrl.value else USER_IMAGE_NOT_FOUND_URL, color)
  }

  /** Two notices of different kinds differ in title and in colour. */
  lemma KindsAreDistinguishable(k1: NotificationKind, k2: NotificationKind, u1: Option<string>,
                                u2: Option<string>, c1: string, c2: string, n1: nat, n2: nat,
                                a1: Option<string>, a2: Option<string>)
    requires k1 != k2
    ensures NotificationTemplate(k1, u1, c1, n1, a1).title != NotificationTemplate(k2, u2, c2, n2, a2).title
    ensures NotificationTemplate(k1, u1, c1, n1, a1).color != NotificationTemplate(k2, u2, c2, n2, a2).color
  {
    var e1 := NotificationTemplate(k1, u1, c1, n1, a1);
    var e2 := NotificationTemplate(k2, u2, c2, n2, a2);
    assert KindOfTitle(e1.title) != KindOfTitle(e2.title);
    assert KindOfColor(e1.color) != KindOfColor(e2.color);
  }
}
