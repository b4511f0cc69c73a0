// One client session and its IRC command handler. The connection's state is
// its chat table; what it writes to the client and what it asks of the chat
// backend are kept as two logs, so that every command's effect on all three
// can be stated.
module Irc {
  import opened Strings
  import opened Chats
  import opened Protocol
  import opened Commands

  /** Concatenation regroups freely. */
  lemma Regroup<T>(a: seq<T>, b: seq<T>, c: seq<T>)
    ensures (a + b) + c == a + (b + c)
  {
  }

  /** The 322 lines written after `before` for `chats`, in table order, name
      channels that resolve back to the chat each was written for. */
  lemma ListedChannels(chats: seq<Chat>, before: seq<Reply>, after: seq<Reply>, nick: string)
    requires UniqueIdentifiers(chats) && |before| + |chats| <= |after|
    requires forall i :: 0 <= i < |chats| ==>
      after[|before| + i] ==
        ListItem(nick, chats[i].identifier,
                 if chats[i].isGroup then |chats[i].participants| else 2, chats[i].name)
    ensures forall j :: |before| <= j < |before| + |chats| ==>
      after[j].ListItem? && Lookup(chats, after[j].channel) == Some(j - |before|)
  {
    forall j | |before| <= j < |before| + |chats|
      ensures after[j].ListItem? && Lookup(chats, after[j].channel) == Some(j - |before|)
    {
      var i := j - |before|;
      var c := chats[i];
      assert after[j] == ListItem(nick, c.identifier, if c.isGroup then |c.participants| else 2, c.name);
      LookupIdentifier(chats, i);
    }
  }

  class Connection {
    /** The client's nick (`conn.irc.Nick()`); no command here changes it. */
    const nick: string
    /** The chats the session knows (`conn.chats`), in the order LIST reports them. */
    var chats: seq<Chat>
    /** Every line handed to the connection's write path, in order. */
    var out: seq<Reply>
    /** Every call made into the chat backend, and every call of the
        `joinChat` helper, in order. */
    var calls: seq<BackendCall>

    /** The session invariant: IRC identifiers address at most one chat. */
    ghost predicate Valid()
      reads this
    {
      UniqueIdentifiers(chats)
    }

    constructor (nick: string, chats: seq<Chat>)
      requires UniqueIdentifiers(chats)
      ensures Valid() && this.nick == nick && this.chats == chats
      ensures out == [] && calls == []
    {
      this.nick := nick;
      this.chats := chats;
      out := [];
      calls := [];
    }

    /** `conn.irc.WriteNow`: the line is written, and the result is whether
        writing it reached the client. */
    method Write(r: Reply, o: Oracle) returns (res: Outcome)
      modifies this
      ensures chats == old(chats) && calls == old(calls)
      ensures out == old(out) + [r]
      ensures res == WriteResult(o, |old(out)|)
    {
      res := WriteResult(o, |out|);
      out := out + [r];
    }

    /** `conn.irc.Status`: a notice from the `status` pseudo-user. */
    method Status(text: string, o: Oracle) returns (res: Outcome)
      modifies this
      ensures chats == old(chats) && calls == old(calls)
      ensures out == old(out) + [StatusNotice(text)]
      ensures res == WriteResult(o, |old(out)|)
    {
      res := Write(StatusNotice(text), o);
    }

    /** What PRIVMSG <to> <text> does: nothing for the target `status`;
        "unknown chat" for a target that does not resolve; otherwise it sends
        the body to the chat and reports a failed send. */
    twostate predicate PrivMsgEffect(to: string, text: string, ctcp: Ctcp, o: Oracle, res: Outcome)
      reads this
    {
      chats == old(chats) &&
      (to == "status" ==> out == old(out) && calls == old(calls) && res == Ok) &&
      (to != "status" && Lookup(old(chats), to).None? ==>
        calls == old(calls) && out == old(out) + [StatusNotice("unknown chat")] &&
        res == WriteResult(o, |old(out)|)) &&
      (to != "status" && Lookup(old(chats), to).Some? ==>
        var id := ChatAt(old(chats), to).id;
        var body := MessageBody(text, ctcp);
        calls == old(calls) + [SendMessage(id, body)] &&
        (o.sendMessage(id, body).Done? ==> out == old(out) && res == Ok) &&
        (o.sendMessage(id, body).Failed? ==>
          out == old(out) + [StatusNotice("err while sending: " + o.sendMessage(id, body).text)] &&
          res == WriteResult(o, |old(out)|)))
    }

    /** PRIVMSG <to> <text>: forward the body to the chat `to` names. */
    method PrivMsg(to: string, text: string, ctcp: Ctcp, o: Oracle) returns (res: Outcome)
      requires Valid()
      modifies this
      ensures Valid() && PrivMsgEffect(to, text, ctcp, o, res)
    {
      var body := MessageBody(text, ctcp);
      if to == "status" {
        return Ok;
      }
      var found := Lookup(chats, to);
      if found.None? {
        res := Status("unknown chat", o);
        return;
      }
      var id := chats[found.value].id;
      calls := calls + [SendMessage(id, body)];
      var sent := o.sendMessage(id, body);
      if sent.Failed? {
        res := Status("err while sending: " + sent.text, o);
        return;
      }
      res := Ok;
    }

    /** What JOIN <ident>{,<ident>} does: the chat table and calls of JoinRun
        over the comma-separated identifiers, and the notice it ends with. */
    twostate predicate JoinEffect(param: string, o: Oracle, res: Outcome)
      reads this
    {
      var r := JoinRun(old(chats), Split(param), o);
      chats == r.chats && calls == old(calls) + r.calls &&
      out == old(out) + JoinNotice(r.stop, param) &&
      res == (if r.stop.Completed? then Ok else WriteResult(o, |old(out)|))
    }

    /** JOIN <ident>{,<ident>}: join each chat in turn, as JoinRun says. */
    method Join(param: string, o: Oracle) returns (res: Outcome)
      requires Valid()
      modifies this
      ensures Valid() && JoinEffect(param, o, res)
    {
      var idents := Split(param);
      JoinRunKeepsChats(chats, idents, o);
      UniqueSameExceptJoined(chats, JoinRun(chats, idents, o).chats);
      var cs, made, stop := JoinChats(chats, idents, o);
      chats, calls := cs, calls + made;
      match stop
      case Completed =>
        res := Ok;
      case NotFound =>
        res := Status("chat not found: " + param, o);
      case JoinFailed(e) =>
        res := Status("error while joining: " + e, o);
    }

    /** What PART <ident>{,<ident>} does: the chat table of PartRun over the
        comma-separated identifiers, no backend call, and "unknown chat" when
        an identifier does not resolve. */
    twostate predicate PartEffect(param: string, o: Oracle, res: Outcome)
      reads this
    {
      var r := PartRun(old(chats), Split(param));
      chats == r.chats && calls == old(calls) &&
      out == old(out) + (if r.allFound then [] else [StatusNotice("unknown chat")]) &&
      res == (if r.allFound then Ok else WriteResult(o, |old(out)|))
    }

    /** PART <ident>{,<ident>}: mark each chat not joined, as PartRun says. */
    method Part(param: string, o: Oracle) returns (res: Outcome)
      requires Valid()
      modifies this
      ensures Valid() && PartEffect(param, o, res)
    {
      var idents := Split(param);
      PartRunSpec(chats, idents, PartRun(chats, idents), Resolved(chats, idents));
      UniqueSameExceptJoined(chats, PartRun(chats, idents).chats);
      var cs, allFound := PartChats(chats, idents);
      chats := cs;
      if !allFound {
        res := Status("unknown chat", o);
        return;
      }
      res := Ok;
    }

    /** What MODE <channel> (+o|-o) <nick> does: nothing unless it has exactly
        three parameters; "chat not found" for a channel that does not
        resolve; nothing for another flag; otherwise SetAdmin on the first
        matching participant, then the MODE line (which always says "+o") or
        the error. No matching participant is silent. */
    twostate predicate ModeEffect(params: seq<string>, o: Oracle, res: Outcome)
      reads this
    {
      chats == old(chats) &&
      (|params| != 3 ==> out == old(out) && calls == old(calls) && res == Ok) &&
      (|params| == 3 && Lookup(old(chats), params[0]).None? ==>
        calls == old(calls) && out == old(out) + [StatusNotice("chat not found")] &&
        res == WriteResult(o, |old(out)|)) &&
      (|params| == 3 && Lookup(old(chats), params[0]).Some? && params[1] != "+o" && params[1] != "-o" ==>
        calls == old(calls) && out == old(out) && res == Ok) &&
      (|params| == 3 && Lookup(old(chats), params[0]).Some? && (params[1] == "+o" || params[1] == "-o") ==>
        var c := ChatAt(old(chats), params[0]);
        var target := Lower(params[2]);
        var m := FirstMatch(c.participants, target);
        (m.None? ==> calls == old(calls) && out == old(out) && res == Ok) &&
        (m.Some? ==>
          var user := c.participants[m.value].id;
          var op := params[1] == "+o";
          calls == old(calls) + [SetAdmin(c.id, user, op)] &&
          res == WriteResult(o, |old(out)|) &&
          (o.setAdmin(c.id, user, op).Done? ==> out == old(out) + [ModeEcho(nick, params[0], "+o", target)]) &&
          (o.setAdmin(c.id, user, op).Failed? ==>
            out == old(out) + [StatusNotice("error while opping " + target + ": " + o.setAdmin(c.id, user, op).text)])))
    }

    /** MODE <channel> (+o|-o) <nick>: give or take admin rights in a group. */
    method Mode(params: seq<string>, o: Oracle) returns (res: Outcome)
      requires Valid()
      modifies this
      ensures Valid() && ModeEffect(params, o, res)
    {
      if |params| != 3 {
        return Ok;
      }
      var ident, mode, target := params[0], params[1], Lower(params[2]);
      var found := Lookup(chats, ident);
      if found.None? {
        res := Status("chat not found", o);
        return;
      }
      var op: bool;
      if mode == "+o" {
        op := true;
      } else if mode == "-o" {
        op := false;
      } else {
        return Ok;
      }
      var c := chats[found.value];
      var m := FindParticipant(c.participants, target);
      if m.None? {
        return Ok;
      }
      var user := c.participants[m.value].id;
      calls := calls + [SetAdmin(c.id, user, op)];
      var answer := o.setAdmin(c.id, user, op);
      if answer.Failed? {
        res := Status("error while opping " + target + ": " + answer.text, o);
        return;
      }
      res := Write(ModeEcho(nick, ident, "+o", target), o);
    }

    /** What LIST does: one 322 line per known chat, in table order, with the
        participant count of a group or 2 for a direct chat, then exactly one
        323 line, last; no backend call and no error. */
    twostate predicate ListEffect(o: Oracle, res: Outcome)
      reads this
    {
      chats == old(chats) && calls == old(calls) && res == Ok &&
      |out| == |old(out)| + |chats| + 1 && out[..|old(out)|] == old(out) &&
      (forall i :: 0 <= i < |chats| ==>
        out[|old(out)| + i] ==
          ListItem(nick, chats[i].identifier,
                   if chats[i].isGroup then |chats[i].participants| else 2, chats[i].name)) &&
      out[|out| - 1] == ListEnd(nick)
    }

    /** Every chat of a valid session is addressed by its own identifier:
        resolving it gives back that chat. */
    lemma IdentifiersResolve()
      requires Valid()
      ensures forall k :: 0 <= k < |chats| ==> Lookup(chats, chats[k].identifier) == Some(k)
    {
      forall k | 0 <= k < |chats|
        ensures Lookup(chats, chats[k].identifier) == Some(k)
      {
        LookupIdentifier(chats, k);
      }
    }

    /** LIST: one 322 line per known chat, then the 323 terminator. Each
        channel it lists resolves back to the chat it was listed for. */
    method List(o: Oracle) returns (res: Outcome)
      requires Valid()
      modifies this
      ensures Valid() && ListEffect(o, res)
      ensures forall j :: |old(out)| <= j < |old(out)| + |chats| ==>
        out[j].ListItem? && Lookup(chats, out[j].channel) == Some(j - |old(out)|)
    {
      var k := 0;
      while k < |chats|
        invariant 0 <= k <= |chats|
        invariant chats == old(chats) && calls == old(calls)
        invariant |out| == |old(out)| + k && out[..|old(out)|] == old(out)
        invariant forall i :: 0 <= i < k ==>
          out[|old(out)| + i] ==
            ListItem(nick, chats[i].identifier,
                     if chats[i].isGroup then |chats[i].participants| else 2, chats[i].name)
      {
        var c := chats[k];
        var members := |c.participants|;
        if !c.isGroup {
          members := 2;
        }
        var _ := Write(ListItem(nick, c.identifier, members, c.name), o);
        k := k + 1;
      }
      var _ := Write(ListEnd(nick), o);
      res := Ok;
      ListedChannels(chats, old(out), out, nick);
    }

    /** What WHO <ident> does: the presence lookups and 352 lines of WhoRun
        over the members of the group `ident` names (none for another
        target), then the 315 line unless a 352 write failed, which is the
        only error it returns. */
    twostate predicate WhoEffect(ident: string, o: Oracle, res: Outcome)
      reads this
    {
      var r := WhoRun(nick, ident, WhoMembers(old(chats), ident), o, |old(out)|);
      chats == old(chats) && calls == old(calls) + r.calls &&
      out == old(out) + r.replies + (if r.failed then [] else [WhoEnd(nick, ident)]) &&
      res == (if r.failed then WriteError else Ok)
    }

    /** WHO <ident>: one 352 line per other participant of a group chat, then
        the 315 terminator, unless a 352 write fails. */
    method Who(ident: string, o: Oracle) returns (res: Outcome)
      requires Valid()
      modifies this
      ensures Valid() && WhoEffect(ident, o, res)
      ensures !IsGroupTarget(chats, ident) ==>
        calls == old(calls) && out == old(out) + [WhoEnd(nick, ident)] && res == Ok
    {
      var found := Lookup(chats, ident);
      if found.Some? && chats[found.value].isGroup {
        var failed := WhoParticipants(ident, chats[found.value].participants, o);
        if failed {
          return WriteError;
        }
      }
      var _ := Write(WhoEnd(nick, ident), o);
      res := Ok;
    }

    /** The loop of WHO over a group's participants: a presence lookup and a
        352 line for each one other than the session's own, stopping at the
        first write that fails. */
    method WhoParticipants(ident: string, ps: seq<Participant>, o: Oracle) returns (failed: bool)
      modifies this
      ensures chats == old(chats)
      ensures var r := WhoRun(nick, ident, ps, o, |old(out)|);
        calls == old(calls) + r.calls && out == old(out) + r.replies && failed == r.failed
    {
      ghost var target := WhoRun(nick, ident, ps, o, |out|);
      ghost var rest := target;
      var k := 0;
      while k < |ps|
        invariant 0 <= k <= |ps|
        invariant chats == old(chats)
        invariant rest == WhoRun(nick, ident, ps[k..], o, |out|)
        invariant out + rest.replies == old(out) + target.replies
        invariant calls + rest.calls == old(calls) + target.calls
        invariant rest.failed == target.failed
      {
        WhoRunStep(nick, ident, ps, k, o, |out|);
        var p := ps[k];
        if !p.isMe {
          ghost var calls1 := calls;
          calls := calls + [GetPresence(p.id)];
          var presence := o.presence(p.id);
          var stamp := "H";
          if presence.found && !presence.failed && !presence.online {
            stamp := "G";
          }
          ghost var before := out;
          assert stamp == Stamp(presence);
          var w := Write(WhoItem(nick, ident, p.safeName, stamp, p.fullName), o);
          if w == WriteError {
            return true;
          }
          ghost var next := WhoRun(nick, ident, ps[k + 1..], o, |out|);
          assert rest == WhoResult([GetPresence(p.id)] + next.calls, [WhoLine(nick, ident, p, o)] + next.replies, next.failed);
          Regroup(before, [WhoLine(nick, ident, p, o)], next.replies);
          Regroup(calls1, [GetPresence(p.id)], next.calls);
          rest := next;
        } else {
          rest := WhoRun(nick, ident, ps[k + 1..], o, |out|);
        }
        k := k + 1;
      }
      assert ps[k..] == [];
      failed := false;
    }

    /** What WHOIS <nick> does: 401 alone, naming `nick` as given, when `nick`
        does not name a direct chat; otherwise the common groups are fetched,
        and 311, the 319 line of CommonChannels and 318 are written, all
        naming the chat's own identifier. (Under the exact-match `Lookup` of
        this model that identifier equals `nick`.) */
    twostate predicate WhoisEffect(target: string, o: Oracle, res: Outcome)
      reads this
    {
      chats == old(chats) &&
      (!IsDirectTarget(old(chats), target) ==>
        calls == old(calls) && out == old(out) + [NoSuchNick(nick, target)] &&
        res == WriteResult(o, |old(out)|)) &&
      (IsDirectTarget(old(chats), target) ==>
        var c := ChatAt(old(chats), target);
        calls == old(calls) + [GetCommonGroups(c.id)] && res == Ok &&
        out == old(out) + [WhoisUser(nick, c.identifier, c.name)] +
               CommonChannels(nick, c, o) + [WhoisEnd(nick, c.identifier)])
    }

    /** WHOIS <nick>: 311, then 319 with the common groups when there are
        any, then 318; 401 alone when `nick` is not a direct chat. */
    method Whois(target: string, o: Oracle) returns (res: Outcome)
      requires Valid()
      modifies this
      ensures Valid() && WhoisEffect(target, o, res)
    {
      var found := Lookup(chats, target);
      if found.None? || chats[found.value].isGroup {
        res := Write(NoSuchNick(nick, target), o);
        return;
      }
      var c := chats[found.value];
      var identifier := c.identifier;
      var _ := Write(WhoisUser(nick, identifier, c.name), o);
      calls := calls + [GetCommonGroups(c.id)];
      var groups := o.commonGroups(c.id);
      if groups.Groups? && |groups.groups| > 0 {
        var names := CollectIdentifiers(groups.groups, o.convertChat);
        var _ := Write(WhoisChannels(nick, identifier, names), o);
      }
      var _ := Write(WhoisEnd(nick, identifier), o);
      res := Ok;
    }

    /** What KICK <channel> <nick> does: 403 and no call when the channel is
        not a group; otherwise RemoveParticipant on the first participant
        matching the lower-cased nick, and the error if it fails. No matching
        participant is silent. */
    twostate predicate KickEffect(channel: string, who: string, o: Oracle, res: Outcome)
      reads this
    {
      chats == old(chats) &&
      (!IsGroupTarget(old(chats), channel) ==>
        calls == old(calls) && out == old(out) + [NoSuchChannel(nick, channel)] &&
        res == WriteResult(o, |old(out)|)) &&
      (IsGroupTarget(old(chats), channel) ==>
        var c := ChatAt(old(chats), channel);
        var target := Lower(who);
        var m := FirstMatch(c.participants, target);
        (m.None? ==> calls == old(calls) && out == old(out) && res == Ok) &&
        (m.Some? ==>
          var user := c.participants[m.value].id;
          calls == old(calls) + [RemoveParticipant(c.id, user)] &&
          (o.removeParticipant(c.id, user).Done? ==> out == old(out) && res == Ok) &&
          (o.removeParticipant(c.id, user).Failed? ==>
            out == old(out) + [StatusNotice("error while kicking " + target + ": " + o.removeParticipant(c.id, user).text)] &&
            res == WriteResult(o, |old(out)|))))
    }

    /** KICK <channel> <nick>: remove the first matching member of a group. */
    method Kick(channel: string, who: string, o: Oracle) returns (res: Outcome)
      requires Valid()
      modifies this
      ensures Valid() && KickEffect(channel, who, o, res)
    {
      var target := Lower(who);
      var found := Lookup(chats, channel);
      if found.None? || !chats[found.value].isGroup {
        res := Write(NoSuchChannel(nick, channel), o);
        return;
      }
      var c := chats[found.value];
      var m := FindParticipant(c.participants, target);
      if m.None? {
        return Ok;
      }
      var user := c.participants[m.value].id;
      calls := calls + [RemoveParticipant(c.id, user)];
      var answer := o.removeParticipant(c.id, user);
      if answer.Failed? {
        res := Status("error while kicking " + target + ": " + answer.text, o);
        return;
      }
      res := Ok;
    }

    /** What INVITE <nick> <channel> does: 442 when the channel is not a
        group, else 401 when the nick is not a direct chat, else
        AddParticipant of the person's chat to the group, and the error if it
        fails. */
    twostate predicate InviteEffect(who: string, channel: string, o: Oracle, res: Outcome)
      reads this
    {
      chats == old(chats) &&
      (!IsGroupTarget(old(chats), channel) ==>
        calls == old(calls) && out == old(out) + [NotOnChannel(nick, channel)] &&
        res == WriteResult(o, |old(out)|)) &&
      (IsGroupTarget(old(chats), channel) && !IsDirectTarget(old(chats), who) ==>
        calls == old(calls) && out == old(out) + [NoSuchNick(nick, who)] &&
        res == WriteResult(o, |old(out)|)) &&
      (IsGroupTarget(old(chats), channel) && IsDirectTarget(old(chats), who) ==>
        var group, person := ChatAt(old(chats), channel).id, ChatAt(old(chats), who).id;
        calls == old(calls) + [AddParticipant(group, person)] &&
        (o.addParticipant(group, person).Done? ==> out == old(out) && res == Ok) &&
        (o.addParticipant(group, person).Failed? ==>
          out == old(out) + [StatusNotice("error while adding " + who + ": " + o.addParticipant(group, person).text)] &&
          res == WriteResult(o, |old(out)|)))
    }

    /** INVITE <nick> <channel>: add the person `nick` names to a group. */
    method Invite(who: string, channel: string, o: Oracle) returns (res: Outcome)
      requires Valid()
      modifies this
      ensures Valid() && InviteEffect(who, channel, o, res)
    {
      var found := Lookup(chats, channel);
      if found.None? || !chats[found.value].isGroup {
        res := Write(NotOnChannel(nick, channel), o);
        return;
      }
      var person := Lookup(chats, who);
      if person.None? || chats[person.value].isGroup {
        res := Write(NoSuchNick(nick, who), o);
        return;
      }
      var group, invitee := chats[found.value].id, chats[person.value].id;
      calls := calls + [AddParticipant(group, invitee)];
      var answer := o.addParticipant(group, invitee);
      if answer.Failed? {
        res := Status("error while adding " + who + ": " + answer.text, o);
        return;
      }
      res := Ok;
    }

    /** `handleIRCCommand`: dispatch on the command word. Each handled command
        has the effect its predicate states, on the parameters in the order
        that command reads them. Only JOIN and PART change the chat table, and
        only its `joined` flags: JOIN only sets them, PART only clears them.
        Commands it does not handle do nothing. */
    method HandleIRCCommand(msg: Message, o: Oracle) returns (res: Outcome)
      requires Valid() && HasParams(msg)
      modifies this
      ensures Valid() && SameExceptJoined(old(chats), chats)
      ensures msg.command != "JOIN" && msg.command != "PART" ==> chats == old(chats)
      ensures msg.command == "JOIN" ==>
        forall k :: 0 <= k < |chats| ==> old(chats)[k].joined ==> chats[k].joined
      ensures msg.command == "PART" ==>
        calls == old(calls) && forall k :: 0 <= k < |chats| ==> chats[k].joined ==> old(chats)[k].joined
      ensures msg.command in {"PART", "LIST"} ==> calls == old(calls)
      ensures !IsHandled(msg.command) ==> out == old(out) && calls == old(calls) && res == Ok
      ensures msg.command == "PRIVMSG" ==> PrivMsgEffect(msg.params[0], msg.params[1], msg.ctcp, o, res)
      ensures msg.command == "JOIN" ==> JoinEffect(msg.params[0], o, res)
      ensures msg.command == "PART" ==> PartEffect(msg.params[0], o, res)
      ensures msg.command == "MODE" ==> ModeEffect(msg.params, o, res)
      ensures msg.command == "LIST" ==> ListEffect(o, res)
      ensures msg.command == "WHO" ==> WhoEffect(msg.params[0], o, res)
      ensures msg.command == "WHOIS" ==> WhoisEffect(msg.params[0], o, res)
      ensures msg.command == "KICK" ==> KickEffect(msg.params[0], msg.params[1], o, res)
      ensures msg.command == "INVITE" ==> InviteEffect(msg.params[0], msg.params[1], o, res)
    {
      match msg.command
      case "PRIVMSG" =>
        res := PrivMsg(msg.params[0], msg.params[1], msg.ctcp, o);
      case "JOIN" =>
        ghost var before := chats;
        res := Join(msg.params[0], o);
        JoinRunKeepsChats(before, Split(msg.params[0]), o);
        JoinRunFlags(before, Split(msg.params[0]), o, JoinRun(before, Split(msg.params[0]), o),
                     Resolved(before, Split(msg.params[0])));
      case "PART" =>
        ghost var before := chats;
        res := Part(msg.params[0], o);
        PartRunSpec(before, Split(msg.params[0]), PartRun(before, Split(msg.params[0])),
                    Resolved(before, Split(msg.params[0])));
      case "MODE" =>
        res := Mode(msg.params, o);
      case "LIST" =>
        res := List(o);
      case "WHO" =>
        res := Who(msg.params[0], o);
      case "WHOIS" =>
        res := Whois(msg.params[0], o);
      case "KICK" =>
        res := Kick(msg.params[0], msg.params[1], o);
      case "INVITE" =>
        res := Invite(msg.params[0], msg.params[1], o);
      case _ =>
        res := Ok;
    }
  }
}
