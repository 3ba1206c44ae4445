/**
 * The voice-channel notifier: an `enabled` switch toggled by slash commands,
 * quiet hours, and the classification of a voice-state update into a join,
 * a leave or a move notice.
 */
module VcNotifier {
  import opened Wrappers
  import opened VcTemplate

  const NOTIFICATION_DISABLED_FROM := 0
  const NOTIFICATION_DISABLED_TO := 8
  const BASE_COMMANDS := ["vc-notifier", "vcn"]

  const SUB_COMMAND_HELP := "help"
  const SUB_COMMAND_INFO := "info"
  const SUB_COMMAND_DISABLE := "disable"
  const SUB_COMMAND_ENABLE := "enable"

  const DISABLED_TEXT := "通知を無効化しました"
  const ENABLED_TEXT := "通知を有効化しました"

  /** `isNotificationDisabled`, for the local hour `getHours()` returns (0 to 23). */
  function IsNotificationDisabled(hour: nat): (r: bool)
    requires hour < 24
    ensures r <==> hour in {0, 1, 2, 3, 4, 5, 6, 7}
  {
    NOTIFICATION_DISABLED_FROM <= hour && hour < NOTIFICATION_DISABLED_TO
  }

  /** A voice channel as the notifier reads it. */
  datatype VoiceChannel = VoiceChannel(id: string, name: string, memberCount: nat)

  /** One side of a voice-state update: the channel, if any, and the member's display name and avatar. */
  datatype VoiceState = VoiceState(channel: Option<VoiceChannel>, displayName: Option<string>,
                                   avatarUrl: Option<string>)

  /** The notify channel looked up in the client's cache. */
  datatype NotifyChannel = Missing | NotTextBased | TextBased

  /** The change a voice-state update represents. */
  datatype Transition = Joined(to: VoiceChannel) | Left(from: VoiceChannel)
                      | Moved(from: VoiceChannel, to: VoiceChannel) | Unchanged

  /** The three branches of the voiceStateUpdate handler, in their order. */
  function Classify(oldChannel: Option<VoiceChannel>, newChannel: Option<VoiceChannel>): (t: Transition)
    ensures t.Joined? <==> oldChannel.None? && newChannel.Some?
    ensures t.Left? <==> oldChannel.Some? && newChannel.None?
    ensures t.Moved? <==> oldChannel.Some? && newChannel.Some? && oldChannel.value.id != newChannel.value.id
    ensures t.Joined? || t.Moved? ==> Some(t.to) == newChannel
    ensures t.Left? || t.Moved? ==> Some(t.from) == oldChannel
  {
    if oldChannel.None? && newChannel.Some? then Joined(newChannel.value)
    else if oldChannel.Some? && newChannel.None? then Left(oldChannel.value)
    else if oldChannel.Some? && newChannel.Some? && oldChannel.value.id != newChannel.value.id then
      Moved(oldChannel.value, newChannel.value)
    else Unchanged
  }

  /** What the guards of the interactionCreate handler read from an interaction. */
  datatype Interaction = Interaction(isCommand: bool, isChatInput: bool, commandName: string,
                                    inGuild: bool, subCommand: string)

  /** A chat-input command of this module, used in a guild. */
  predicate IsOwnCommand(i: Interaction) {
    i.isCommand && i.isChatInput && i.commandName in BASE_COMMANDS && i.inGuild
  }

  /** The reply an interaction gets. Help and info carry fixed text that is not modelled. */
  datatype Reply = HelpReply | InfoReply | Content(text: string)

  /** The new value of `enabled` after an interaction. */
  function NextEnabled(enabled: bool, i: Interaction): (r: bool)
    ensures !IsOwnCommand(i) ==> r == enabled
    ensures IsOwnCommand(i) && i.subCommand == SUB_COMMAND_DISABLE ==> !r
    ensures IsOwnCommand(i) && i.subCommand == SUB_COMMAND_ENABLE ==> r
    ensures i.subCommand !in {SUB_COMMAND_DISABLE, SUB_COMMAND_ENABLE} ==> r == enabled
  {
    if !IsOwnCommand(i) then enabled
    else if i.subCommand == SUB_COMMAND_DISABLE then false
    else if i.subCommand == SUB_COMMAND_ENABLE then true
    else enabled
  }

  /** The value of `enabled` after a run of interactions. */
  function Replay(enabled: bool, steps: seq<Interaction>): bool
    decreases |steps|
  {
    if steps == [] then enabled else Replay(NextEnabled(enabled, steps[0]), steps[1..])
  }

  /** The switch an interaction sets, if any. */
  function Toggle(i: Interaction): Option<bool> {
    if IsOwnCommand(i) && i.subCommand == SUB_COMMAND_DISABLE then Some(false)
    else if IsOwnCommand(i) && i.subCommand == SUB_COMMAND_ENABLE then Some(true)
    else None
  }

  /** The last switch set in a run of interactions. */
  function LastToggle(steps: seq<Interaction>): Option<bool> {
    if steps == [] then None
    else if Toggle(steps[|steps| - 1]).Some? then Toggle(steps[|steps| - 1])
    else LastToggle(steps[..|steps| - 1])
  }

  lemma {:induction false} ReplaySnoc(enabled: bool, steps: seq<Interaction>, i: Interaction)
    ensures Replay(enabled, steps + [i]) == NextEnabled(Replay(enabled, steps), i)
    decreases |steps|
  {
    if steps != [] {
      assert (steps + [i])[1..] == steps[1..] + [i];
      ReplaySnoc(NextEnabled(enabled, steps[0]), steps[1..], i);
    }
  }

  /**
   * The switch is decided by the last enable or disable command alone; with
   * none, it keeps its value (true, from construction).
   */
  lemma {:induction false} LastToggleWins(enabled: bool, steps: seq<Interaction>)
    ensures Replay(enabled, steps) == if LastToggle(steps).Some? then LastToggle(steps).value else enabled
  {
    if steps != [] {
      var init, last := steps[..|steps| - 1], steps[|steps| - 1];
      assert steps == init + [last];
      ReplaySnoc(enabled, init, last);
      LastToggleWins(enabled, init);
    }
  }

  class VoiceChannelNotifier {
    var enabled: bool

    constructor()
      ensures enabled
    {
      enabled := true;
    }

    /**
     * The interactionCreate handler: foreign commands, commands outside a
     * guild and unknown subcommands get no reply.
     */
    method HandleInteraction(i: Interaction) returns (reply: Option<Reply>)
      modifies this
      ensures enabled == NextEnabled(old(enabled), i)
      ensures reply.None? <==> !IsOwnCommand(i) ||
                               i.subCommand !in {SUB_COMMAND_HELP, SUB_COMMAND_INFO, SUB_COMMAND_DISABLE, SUB_COMMAND_ENABLE}
      ensures IsOwnCommand(i) && i.subCommand == SUB_COMMAND_HELP ==> reply == Some(HelpReply)
      ensures IsOwnCommand(i) && i.subCommand == SUB_COMMAND_INFO ==> reply == Some(InfoReply)
      ensures IsOwnCommand(i) && i.subCommand == SUB_COMMAND_DISABLE ==> reply == Some(Content(DISABLED_TEXT))
      ensures IsOwnCommand(i) && i.subCommand == SUB_COMMAND_ENABLE ==> reply == Some(Content(ENABLED_TEXT))
    {
      if !i.isCommand || !i.isChatInput || i.commandName !in BASE_COMMANDS || !i.inGuild {
        return None;
      }
      if i.subCommand == SUB_COMMAND_HELP {
        reply := Some(HelpReply);
      } else if i.subCommand == SUB_COMMAND_INFO {
        reply := Some(InfoReply);
      } else if i.subCommand == SUB_COMMAND_DISABLE {
        enabled := false;
        reply := Some(Content(DISABLED_TEXT));
      } else if i.subCommand == SUB_COMMAND_ENABLE {
        enabled := true;
        reply := Some(Content(ENABLED_TEXT));
      } else {
        reply := None;
      }
    }

    /**
     * The voiceStateUpdate handler: the embed sent to the notify channel, if
     * any. Join and move notices describe the new channel, leave notices the
     * old one.
     */
    function Notification(hour: nat, oldState: VoiceState, newState: VoiceState, notify: NotifyChannel)
      : (r: Option<Embed>)
      requires hour < 24
      reads this
      ensures r.Some? <==> enabled && !IsNotificationDisabled(hour) && notify == TextBased
                           && !Classify(oldState.channel, newState.channel).Unchanged?
      ensures r.Some? ==>
        match Classify(oldState.channel, newState.channel)
        case Joined(to) =>
          r.value == NotificationTemplate(Join, newState.displayName, to.name, to.memberCount, newState.avatarUrl)
        case Left(from) =>
          r.value == NotificationTemplate(Leave, oldState.displayName, from.name, from.memberCount, oldState.avatarUrl)
        case Moved(_, to) =>
          r.value == NotificationTemplate(Move, newState.displayName, to.name, to.memberCount, newState.avatarUrl)
        case Unchanged => false
    {
      if !enabled || IsNotificationDisabled(hour) then None
      else
        match Classify(oldState.channel, newState.channel)
        case Joined(to) =>
          if notify != TextBased then None
          else Some(NotificationTemplate(Join, newState.displayName, to.name, to.memberCount, newState.avatarUrl))
        case Left(from) =>
          if notify != TextBased then None
          else Some(NotificationTemplate(Leave, oldState.displayName, from.name, from.memberCount, oldState.avatarUrl))
        case Moved(_, to) =>
          if notify != TextBased then None
          else Some(NotificationTemplate(Move, newState.displayName, to.name, to.memberCount, newState.avatarUrl))
        case Unchanged => None
    }
  }

  /** A notice's title always says which change the update was. */
  lemma NoticeKindMatchesTransition(n: VoiceChannelNotifier, hour: nat, oldState: VoiceState,
                                    newState: VoiceState, notify: NotifyChannel)
    requires hour < 24
    requires n.Notification(hour, oldState, newState, notify).Some?
    ensures var t := Classify(oldState.channel, newState.channel);
      KindOfTitle(n.Notification(hour, oldState, newState, notify).value.title)
      == Some(if t.Joined? then Join else if t.Left? then Leave else Move)
  {
  }
}
