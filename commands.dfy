// What each IRC command does, as functions of the session's chat table and
// the oracle, and the properties those functions have. The Connection class
// in module Irc runs the commands step by step and is proved to do exactly
// what these functions say.
module Commands {
  import opened Strings
  import opened Chats
  import opened Protocol

  /** The body PRIVMSG forwards to the backend: a CTCP ACTION with text `t`
      is sent as `_t_` (italics in the backend's markup); anything else is
      the second parameter as it came. */
  function MessageBody(param: string, ctcp: Ctcp): string
  {
    if ctcp.ok && ctcp.tag == ActionTag then "_" + ctcp.text + "_" else param
  }

  /** An action's text is sent wrapped in one underscore on each side, and
      can be read back from the body; any other message is sent unchanged. */
  lemma ActionBody(param: string, ctcp: Ctcp)
    ensures var body := MessageBody(param, ctcp);
      if ctcp.ok && ctcp.tag == ActionTag then
        |body| == |ctcp.text| + 2 && body[0] == '_' && body[|body| - 1] == '_' &&
        body[1..|body| - 1] == ctcp.text
      else body == param
  {
    if ctcp.ok && ctcp.tag == ActionTag {
      var body := MessageBody(param, ctcp);
      assert body == "_" + ctcp.text + "_";
      assert body[1..|body| - 1] == ctcp.text;
    }
  }

  /** `ident` resolves to a group chat. */
  predicate IsGroupTarget(chats: seq<Chat>, ident: string)
  {
    Lookup(chats, ident).Some? && chats[Lookup(chats, ident).value].isGroup
  }

  /** `ident` resolves to a direct (one-to-one) chat. */
  predicate IsDirectTarget(chats: seq<Chat>, ident: string)
  {
    Lookup(chats, ident).Some? && !chats[Lookup(chats, ident).value].isGroup
  }

  /** The chat `ident` resolves to. */
  function ChatAt(chats: seq<Chat>, ident: string): Chat
    requires Lookup(chats, ident).Some?
  {
    chats[Lookup(chats, ident).value]
  }

  // ---------------------------------------------------------------- JOIN

  /** Why a JOIN stopped: it ran through the list, met an identifier that
      does not resolve, or the `joinChat` helper failed on a chat. */
  datatype JoinStop = Completed | NotFound | JoinFailed(text: string)

  /** The chat table after a JOIN, the `joinChat` helper calls it made, and
      why it stopped. */
  datatype JoinResult = JoinResult(chats: seq<Chat>, calls: seq<BackendCall>, stop: JoinStop)
  {
    /** The number of chats that were joined successfully. */
    function Joins(): nat
    {
      if stop.JoinFailed? && |calls| > 0 then |calls| - 1 else |calls|
    }
  }

  /** JOIN over the comma-separated identifiers, left to right: each resolved
      chat is joined (which marks it joined); the first identifier that does
      not resolve, or the first join that fails, ends the command. */
  function JoinRun(chats: seq<Chat>, idents: seq<string>, o: Oracle): JoinResult
    decreases |idents|
  {
    if |idents| == 0 then JoinResult(chats, [], Completed)
    else match Lookup(chats, idents[0])
      case None => JoinResult(chats, [], NotFound)
      case Some(i) =>
        var id := chats[i].id;
        match o.joinChat(id)
        case Failed(e) => JoinResult(chats, [JoinChat(id)], JoinFailed(e))
        case Done =>
          var rest := JoinRun(SetJoined(chats, i, true), idents[1..], o);
          JoinResult(rest.chats, [JoinChat(id)] + rest.calls, rest.stop)
  }

  /** The status notice that ends a JOIN, if any. An identifier that does not
      resolve is reported with the WHOLE parameter, not the failing token. */
  function JoinNotice(stop: JoinStop, param: string): seq<Reply>
  {
    match stop
    case Completed => []
    case NotFound => [StatusNotice("chat not found: " + param)]
    case JoinFailed(e) => [StatusNotice("error while joining: " + e)]
  }

  /** JOIN changes nothing about any chat except `joined` flags. */
  lemma {:induction false} JoinRunKeepsChats(chats: seq<Chat>, idents: seq<string>, o: Oracle)
    ensures SameExceptJoined(chats, JoinRun(chats, idents, o).chats)
    decreases |idents|
  {
    if |idents| > 0 && Lookup(chats, idents[0]).Some? {
      var i := Lookup(chats, idents[0]).value;
      if o.joinChat(chats[i].id).Done? {
        JoinRunKeepsChats(SetJoined(chats, i, true), idents[1..], o);
      }
    }
  }

  /** One step of JOIN from position `k` of the identifiers: it stops on an
      identifier that does not resolve or a join that fails, and otherwise
      goes on from the next position with the chat marked joined. */
  lemma JoinRunStep(chats: seq<Chat>, idents: seq<string>, k: nat, o: Oracle)
    requires k < |idents|
    ensures Lookup(chats, idents[k]).None? ==> JoinRun(chats, idents[k..], o) == JoinResult(chats, [], NotFound)
    ensures Lookup(chats, idents[k]).Some? ==>
      var i := Lookup(chats, idents[k]).value;
      var id := chats[i].id;
      var rest := JoinRun(SetJoined(chats, i, true), idents[k + 1..], o);
      JoinRun(chats, idents[k..], o) ==
        if o.joinChat(id).Failed? then JoinResult(chats, [JoinChat(id)], JoinFailed(o.joinChat(id).text))
        else JoinResult(rest.chats, [JoinChat(id)] + rest.calls, rest.stop)
  {
    assert idents[k..][0] == idents[k] && idents[k..][1..] == idents[k + 1..];
  }

  /** One successful step of JOIN: the first identifier resolves to chat
      `i` and joining it succeeds. */
  lemma JoinRunUnfold(chats: seq<Chat>, idents: seq<string>, o: Oracle, i: nat)
    requires |idents| > 0 && Lookup(chats, idents[0]) == Some(i) && o.joinChat(chats[i].id) == Done
    ensures var next := SetJoined(chats, i, true);
      var rest := JoinRun(next, idents[1..], o);
      JoinRun(chats, idents, o) == JoinResult(rest.chats, [JoinChat(chats[i].id)] + rest.calls, rest.stop) &&
      Resolved(chats, idents) == [i] + Resolved(next, idents[1..])
  {
    ResolvedSameExceptJoined(chats, SetJoined(chats, i, true), idents[1..]);
  }

  /** A successful join in front of a JOIN adds one to its joins. */
  lemma JoinsStep(r: JoinResult, rest: JoinResult, id: ChatId)
    requires r == JoinResult(rest.chats, [JoinChat(id)] + rest.calls, rest.stop)
    requires rest.stop.JoinFailed? ==> |rest.calls| > 0
    ensures r.Joins() == rest.Joins() + 1
  {
  }

  /** Taking a prefix commutes with putting an element in front. */
  lemma ConsPrefix(x: nat, s: seq<nat>, m: nat)
    requires m <= |s|
    ensures ([x] + s)[..m + 1] == [x] + s[..m]
  {
  }

  /** How far JOIN gets, in terms of the resolved chats R: it makes at most
      one call per resolved chat and stops at the first unresolved
      identifier or the first failed join. */
  lemma {:induction false} JoinRunLength(chats: seq<Chat>, idents: seq<string>, o: Oracle,
                                         r: JoinResult, R: seq<nat>)
    requires r == JoinRun(chats, idents, o) && R == Resolved(chats, idents)
    ensures r.Joins() <= |r.calls| <= |R|
    ensures r.stop.JoinFailed? ==> |r.calls| == r.Joins() + 1
    ensures r.stop.NotFound? ==> |r.calls| == |R| < |idents|
    ensures r.stop.Completed? ==> |r.calls| == |R| == |idents|
    decreases |idents|
  {
    if |idents| > 0 && Lookup(chats, idents[0]).Some? {
      var i := Lookup(chats, idents[0]).value;
      if o.joinChat(chats[i].id).Done? {
        var next := SetJoined(chats, i, true);
        JoinRunUnfold(chats, idents, o, i);
        JoinRunLength(next, idents[1..], o, JoinRun(next, idents[1..], o), Resolved(next, idents[1..]));
      }
    }
  }

  /** The calls of JOIN: one `joinChat` helper call for each of the leading
      resolved chats, in order. */
  lemma {:induction false} JoinRunCallTargets(chats: seq<Chat>, idents: seq<string>, o: Oracle,
                                              r: JoinResult, R: seq<nat>)
    requires r == JoinRun(chats, idents, o) && R == Resolved(chats, idents)
    ensures |r.calls| <= |R|
    ensures forall j :: 0 <= j < |r.calls| ==> r.calls[j] == JoinChat(chats[R[j]].id)
    decreases |idents|
  {
    assert |r.calls| <= |R| by {
      JoinRunLength(chats, idents, o, r, R);
    }
    if |idents| > 0 && Lookup(chats, idents[0]).Some? {
      var i := Lookup(chats, idents[0]).value;
      if o.joinChat(chats[i].id).Done? {
        var next := SetJoined(chats, i, true);
        var rest, R' := JoinRun(next, idents[1..], o), Resolved(next, idents[1..]);
        assert r.calls == [JoinChat(chats[i].id)] + rest.calls && R == [i] + R' by {
          JoinRunUnfold(chats, idents, o, i);
        }
        JoinRunCallTargets(next, idents[1..], o, rest, R');
        forall j | 0 < j < |r.calls|
          ensures r.calls[j] == JoinChat(chats[R[j]].id)
        {
          assert r.calls[j] == rest.calls[j - 1] && R[j] == R'[j - 1];
        }
      } else {
        assert R[0] == i;
      }
    }
  }

  /** Every join JOIN counts as successful was answered Done. */
  lemma {:induction false} JoinRunSucceeded(chats: seq<Chat>, idents: seq<string>, o: Oracle,
                                            r: JoinResult, R: seq<nat>)
    requires r == JoinRun(chats, idents, o) && R == Resolved(chats, idents)
    ensures r.Joins() <= |R|
    ensures forall j :: 0 <= j < r.Joins() ==> o.joinChat(chats[R[j]].id) == Done
    decreases |idents|
  {
    JoinRunLength(chats, idents, o, r, R);
    var i := if |idents| > 0 && Lookup(chats, idents[0]).Some? then Lookup(chats, idents[0]).value else 0;
    if |idents| > 0 && Lookup(chats, idents[0]).Some? && o.joinChat(chats[i].id).Done? {
      var next := SetJoined(chats, i, true);
      var rest, R' := JoinRun(next, idents[1..], o), Resolved(next, idents[1..]);
      JoinRunUnfold(chats, idents, o, i);
      JoinRunLength(next, idents[1..], o, rest, R');
      JoinRunSucceeded(next, idents[1..], o, rest, R');
      JoinsStep(r, rest, chats[i].id);
      forall j | 0 <= j < r.Joins()
        ensures o.joinChat(chats[R[j]].id) == Done
      {
        if j > 0 {
          assert R[j] == R'[j - 1];
        }
      }
    } else {
      assert r.Joins() == 0;
    }
  }

  /** A JOIN that stopped on a failed join made that join its last call. */
  lemma {:induction false} JoinRunLastCall(chats: seq<Chat>, idents: seq<string>, o: Oracle)
    requires JoinRun(chats, idents, o).stop.JoinFailed?
    ensures var r := JoinRun(chats, idents, o);
      |r.calls| > 0 && r.calls[|r.calls| - 1].JoinChat? &&
      o.joinChat(r.calls[|r.calls| - 1].chat) == Failed(r.stop.text)
    decreases |idents|
  {
    var i := Lookup(chats, idents[0]).value;
    if o.joinChat(chats[i].id).Done? {
      var next := SetJoined(chats, i, true);
      JoinRunLastCall(next, idents[1..], o);
    }
  }

  /** A JOIN that stopped on a failed join stopped on the chat after the
      ones it joined, with the error the helper gave for it. */
  lemma JoinRunFailure(chats: seq<Chat>, idents: seq<string>, o: Oracle, r: JoinResult, R: seq<nat>)
    requires r == JoinRun(chats, idents, o) && R == Resolved(chats, idents)
    requires r.stop.JoinFailed?
    ensures r.Joins() < |R| && o.joinChat(chats[R[r.Joins()]].id) == Failed(r.stop.text)
  {
    var n := r.Joins();
    assert |r.calls| == n + 1 && n < |R| by {
      JoinRunLength(chats, idents, o, r, R);
    }
    assert r.calls[n] == JoinChat(chats[R[n]].id) by {
      JoinRunCallTargets(chats, idents, o, r, R);
    }
    JoinRunLastCall(chats, idents, o);
  }

  /** Marking chat `i` joined in front of a run of joins over `S` is the same
      as a run of joins over `[i] + S`. */
  lemma FlagsCons(chats: seq<Chat>, i: nat, final: seq<Chat>, T: seq<nat>, S: seq<nat>)
    requires i < |chats| && |final| == |chats| && T == [i] + S
    requires forall k :: 0 <= k < |chats| ==> final[k].joined == (SetJoined(chats, i, true)[k].joined || k in S)
    ensures forall k :: 0 <= k < |chats| ==> final[k].joined == (chats[k].joined || k in T)
  {
    forall k | 0 <= k < |chats|
      ensures final[k].joined == (chats[k].joined || k in T)
    {
      assert SetJoined(chats, i, true)[k].joined == (chats[k].joined || k == i);
      assert (k in T) == (k == i || k in S);
    }
  }

  /** No rollback: after JOIN every chat it joined successfully is joined,
      and every other chat keeps the flag it had. */
  lemma {:induction false} JoinRunFlags(chats: seq<Chat>, idents: seq<string>, o: Oracle,
                                        r: JoinResult, R: seq<nat>)
    requires r == JoinRun(chats, idents, o) && R == Resolved(chats, idents)
    ensures |r.chats| == |chats| && r.Joins() <= |R|
    ensures forall k :: 0 <= k < |chats| ==> r.chats[k].joined == (chats[k].joined || k in R[..r.Joins()])
    decreases |idents|
  {
    var i := if |idents| > 0 && Lookup(chats, idents[0]).Some? then Lookup(chats, idents[0]).value else 0;
    if |idents| > 0 && Lookup(chats, idents[0]).Some? && o.joinChat(chats[i].id).Done? {
      var next := SetJoined(chats, i, true);
      var rest, R' := JoinRun(next, idents[1..], o), Resolved(next, idents[1..]);
      var n, n' := r.Joins(), rest.Joins();
      assert r.chats == rest.chats && n == n' + 1 && n' <= |R'| && R == [i] + R' by {
        JoinRunUnfold(chats, idents, o, i);
        JoinRunLength(next, idents[1..], o, rest, R');
        JoinsStep(r, rest, chats[i].id);
      }
      JoinRunFlags(next, idents[1..], o, rest, R');
      ConsPrefix(i, R', n');
      FlagsCons(chats, i, r.chats, R[..n], R'[..n']);
    } else {
      assert r.chats == chats && r.Joins() == 0;
    }
  }

  /** The loop of JOIN: it walks the identifiers, joining each resolved
      chat, until one does not resolve or a join fails. */
  method JoinChats(chats: seq<Chat>, idents: seq<string>, o: Oracle)
    returns (cs: seq<Chat>, made: seq<BackendCall>, stop: JoinStop)
    ensures JoinRun(chats, idents, o) == JoinResult(cs, made, stop)
  {
    ghost var target := JoinRun(chats, idents, o);
    ghost var rest := target;
    cs, made, stop := chats, [], Completed;
    var k := 0;
    while k < |idents| && stop.Completed?
      invariant 0 <= k <= |idents|
      invariant stop.Completed? ==> rest == JoinRun(cs, idents[k..], o)
      invariant stop.Completed? ==>
        rest.chats == target.chats && rest.stop == target.stop && made + rest.calls == target.calls
      invariant !stop.Completed? ==> target == JoinResult(cs, made, stop)
      decreases |idents| - k, if stop.Completed? then 1 else 0
    {
      JoinRunStep(cs, idents, k, o);
      var found := Lookup(cs, idents[k]);
      if found.None? {
        stop := NotFound;
      } else {
        var i := found.value;
        var id := cs[i].id;
        made := made + [JoinChat(id)];
        var joined := o.joinChat(id);
        if joined.Failed? {
          stop := JoinFailed(joined.text);
        } else {
          cs := SetJoined(cs, i, true);
          k := k + 1;
          ghost var next := JoinRun(cs, idents[k..], o);
          assert rest == JoinResult(next.chats, [JoinChat(id)] + next.calls, next.stop);
          rest := next;
        }
      }
    }
    if stop.Completed? {
      assert idents[k..] == [];
    }
  }

  /** JOIN stops at the first identifier that does not resolve. */
  lemma JoinStopsAtUnresolved(chats: seq<Chat>, idents: seq<string>, o: Oracle)
    requires JoinRun(chats, idents, o).stop.NotFound?
    ensures var n := |JoinRun(chats, idents, o).calls|;
      n < |idents| && Lookup(chats, idents[n]).None? &&
      forall j :: 0 <= j < n ==> Lookup(chats, idents[j]).Some?
  {
    JoinRunLength(chats, idents, o, JoinRun(chats, idents, o), Resolved(chats, idents));
  }

  // ---------------------------------------------------------------- PART

  /** The chat table after a PART, and whether every identifier resolved. */
  datatype PartResult = PartResult(chats: seq<Chat>, allFound: bool)

  /** PART over the comma-separated identifiers, left to right: each resolved
      chat is marked not joined; the first that does not resolve ends it. */
  function PartRun(chats: seq<Chat>, idents: seq<string>): PartResult
    decreases |idents|
  {
    if |idents| == 0 then PartResult(chats, true)
    else match Lookup(chats, idents[0])
      case None => PartResult(chats, false)
      case Some(i) => PartRun(SetJoined(chats, i, false), idents[1..])
  }

  /** One step of PART from position `k` of the identifiers. */
  lemma PartRunStep(chats: seq<Chat>, idents: seq<string>, k: nat)
    requires k < |idents|
    ensures Lookup(chats, idents[k]).None? ==> PartRun(chats, idents[k..]) == PartResult(chats, false)
    ensures Lookup(chats, idents[k]).Some? ==>
      PartRun(chats, idents[k..]) == PartRun(SetJoined(chats, Lookup(chats, idents[k]).value, false), idents[k + 1..])
  {
    assert idents[k..][0] == idents[k] && idents[k..][1..] == idents[k + 1..];
  }

  /** The loop of PART: it walks the identifiers, marking each resolved chat
      not joined, until one does not resolve. */
  method PartChats(chats: seq<Chat>, idents: seq<string>) returns (cs: seq<Chat>, allFound: bool)
    ensures PartRun(chats, idents) == PartResult(cs, allFound)
  {
    ghost var target := PartRun(chats, idents);
    cs := chats;
    var k := 0;
    while k < |idents|
      invariant 0 <= k <= |idents|
      invariant PartRun(cs, idents[k..]) == target
    {
      PartRunStep(cs, idents, k);
      var found := Lookup(cs, idents[k]);
      if found.None? {
        return cs, false;
      }
      cs := SetJoined(cs, found.value, false);
      k := k + 1;
    }
    assert idents[k..] == [];
    allFound := true;
  }

  /** What PART does: the chats resolved before the first unresolved
      identifier lose their `joined` flag, every other chat keeps it, and
      nothing else about any chat changes. */
  lemma {:induction false} PartRunSpec(chats: seq<Chat>, idents: seq<string>, r: PartResult, R: seq<nat>)
    requires r == PartRun(chats, idents) && R == Resolved(chats, idents)
    ensures SameExceptJoined(chats, r.chats)
    ensures r.allFound <==> |R| == |idents|
    ensures forall k :: 0 <= k < |chats| ==> r.chats[k].joined == (chats[k].joined && k !in R)
    decreases |idents|
  {
    if |idents| > 0 && Lookup(chats, idents[0]).Some? {
      var i := Lookup(chats, idents[0]).value;
      var next := SetJoined(chats, i, false);
      var R' := Resolved(next, idents[1..]);
      ResolvedSameExceptJoined(chats, next, idents[1..]);
      assert R == [i] + R';
      PartRunSpec(next, idents[1..], r, R');
    }
  }

  /** PART is a soft leave: afterwards every identifier resolves exactly as
      before, so a later PRIVMSG still reaches a parted chat and a later LIST
      still reports it. */
  lemma PartKeepsChats(chats: seq<Chat>, idents: seq<string>, ident: string)
    ensures |PartRun(chats, idents).chats| == |chats|
    ensures Lookup(PartRun(chats, idents).chats, ident) == Lookup(chats, ident)
  {
    PartRunSpec(chats, idents, PartRun(chats, idents), Resolved(chats, idents));
    LookupSameExceptJoined(chats, PartRun(chats, idents).chats, ident);
  }

  // ---------------------------------------------------------------- WHO

  /** The away flag of a 352 line: "G" (gone) only when presence was found,
      without error, and says offline; "H" (here) otherwise. */
  function Stamp(p: PresenceLookup): string
  {
    if p.found && !p.failed && !p.online then "G" else "H"
  }

  /** The 352 line for one participant. */
  function WhoLine(nick: string, channel: string, p: Participant, o: Oracle): Reply
  {
    WhoItem(nick, channel, p.safeName, Stamp(o.presence(p.id)), p.fullName)
  }

  /** The participants other than the session's own account, in order. */
  function Others(ps: seq<Participant>): seq<Participant>
    decreases |ps|
  {
    if |ps| == 0 then []
    else if ps[0].isMe then Others(ps[1..])
    else [ps[0]] + Others(ps[1..])
  }

  /** Others keeps exactly the participants that are not the session's own. */
  lemma {:induction false} OthersSpec(ps: seq<Participant>)
    ensures |Others(ps)| <= |ps|
    ensures forall p :: p in Others(ps) <==> p in ps && !p.isMe
    decreases |ps|
  {
    if |ps| > 0 {
      OthersSpec(ps[1..]);
      assert ps == [ps[0]] + ps[1..];
    }
  }

  /** Positions listed in strictly increasing order, so without repetition. */
  predicate Increasing(pos: seq<nat>)
  {
    forall i, j :: 0 <= i < j < |pos| ==> pos[i] < pos[j]
  }

  /** Others keeps the order and the number of the participants it keeps:
      its i-th element is the participant at `pos[i]`, where `pos` lists, in
      increasing order, exactly the positions of the participants that are
      not the session's own. */
  lemma {:induction false} OthersOrder(ps: seq<Participant>) returns (pos: seq<nat>)
    ensures |pos| == |Others(ps)| && Increasing(pos)
    ensures forall i :: 0 <= i < |pos| ==> pos[i] < |ps| && Others(ps)[i] == ps[pos[i]]
    ensures forall k :: 0 <= k < |ps| ==> (k in pos <==> !ps[k].isMe)
    decreases |ps|, 1
  {
    if |ps| == 0 {
      pos := [];
    } else {
      var rest := ps[1..];
      var shifted := OthersOrderRest(ps);
      if ps[0].isMe {
        assert Others(ps) == Others(rest);
        pos := shifted;
      } else {
        var others := [ps[0]] + Others(rest);
        assert Others(ps) == others;
        pos := [0] + shifted;
        forall i | 0 < i < |pos|
          ensures pos[i] == shifted[i - 1] && others[i] == Others(rest)[i - 1]
        {
        }
      }
    }
  }

  /** The positions of OthersOrder for all but the first participant,
      counted in the whole list. */
  lemma {:induction false} OthersOrderRest(ps: seq<Participant>) returns (shifted: seq<nat>)
    requires |ps| > 0
    ensures |shifted| == |Others(ps[1..])| && Increasing(shifted)
    ensures forall i :: 0 <= i < |shifted| ==>
      0 < shifted[i] < |ps| && Others(ps[1..])[i] == ps[shifted[i]]
    ensures forall k :: 0 <= k < |ps| ==> (k in shifted <==> k > 0 && !ps[k].isMe)
    decreases |ps|, 0
  {
    var rest := ps[1..];
    var tail := OthersOrder(rest);
    shifted := Shifted(tail);
    forall i | 0 <= i < |shifted|
      ensures 0 < shifted[i] < |ps| && Others(rest)[i] == ps[shifted[i]]
    {
      assert rest[tail[i]] == ps[tail[i] + 1];
    }
    forall k | 0 <= k < |ps|
      ensures k in shifted <==> (k > 0 && !ps[k].isMe)
    {
      if k > 0 {
        assert rest[k - 1] == ps[k];
      }
    }
  }

  /** Every position one further on. */
  function Shifted(pos: seq<nat>): (r: seq<nat>)
    ensures |r| == |pos|
    ensures forall i :: 0 <= i < |r| ==> r[i] == pos[i] + 1
    ensures Increasing(pos) ==> Increasing(r)
    ensures forall k :: k in r <==> k > 0 && k - 1 in pos
  {
    seq(|pos|, i requires 0 <= i < |pos| => pos[i] + 1)
  }

  /** The participants WHO reports on: those of a group chat; none when the
      target does not resolve or is a direct chat. */
  function WhoMembers(chats: seq<Chat>, ident: string): seq<Participant>
  {
    if IsGroupTarget(chats, ident) then ChatAt(chats, ident).participants else []
  }

  /** The presence lookups and 352 lines of a WHO, and whether a 352 write
      failed (which ends the command before the 315 terminator). */
  datatype WhoResult = WhoResult(calls: seq<BackendCall>, replies: seq<Reply>, failed: bool)

  /** The loop of WHO over `ps`, whose first 352 line is written at output
      position `pos`. */
  function WhoRun(nick: string, channel: string, ps: seq<Participant>, o: Oracle, pos: nat): WhoResult
    decreases |ps|
  {
    if |ps| == 0 then WhoResult([], [], false)
    else if ps[0].isMe then WhoRun(nick, channel, ps[1..], o, pos)
    else
      var call := GetPresence(ps[0].id);
      var line := WhoLine(nick, channel, ps[0], o);
      if !o.writeOk(pos) then WhoResult([call], [line], true)
      else
        var rest := WhoRun(nick, channel, ps[1..], o, pos + 1);
        WhoResult([call] + rest.calls, [line] + rest.replies, rest.failed)
  }

  /** One step of WHO's loop from position `k` of the participants. */
  lemma WhoRunStep(nick: string, channel: string, ps: seq<Participant>, k: nat, o: Oracle, pos: nat)
    requires k < |ps|
    ensures ps[k].isMe ==> WhoRun(nick, channel, ps[k..], o, pos) == WhoRun(nick, channel, ps[k + 1..], o, pos)
    ensures !ps[k].isMe ==>
      var call, line := GetPresence(ps[k].id), WhoLine(nick, channel, ps[k], o);
      var rest := WhoRun(nick, channel, ps[k + 1..], o, pos + 1);
      WhoRun(nick, channel, ps[k..], o, pos) ==
        if !o.writeOk(pos) then WhoResult([call], [line], true)
        else WhoResult([call] + rest.calls, [line] + rest.replies, rest.failed)
  {
    assert ps[k..][0] == ps[k] && ps[k..][1..] == ps[k + 1..];
  }

  /** The lines of WHO's loop: one presence lookup and one 352 line per
      participant other than the session's own, in participant order, for
      as many as it got to. */
  lemma {:induction false} WhoRunLines(nick: string, channel: string, ps: seq<Participant>, o: Oracle,
                                       pos: nat, r: WhoResult, q: seq<Participant>)
    requires r == WhoRun(nick, channel, ps, o, pos) && q == Others(ps)
    ensures |r.calls| == |r.replies| <= |q|
    ensures forall i :: 0 <= i < |r.replies| ==>
      r.replies[i] == WhoLine(nick, channel, q[i], o) && r.calls[i] == GetPresence(q[i].id)
    decreases |ps|
  {
    if |ps| > 0 {
      if ps[0].isMe {
        WhoRunLines(nick, channel, ps[1..], o, pos, r, q);
      } else if o.writeOk(pos) {
        var rest, q' := WhoRun(nick, channel, ps[1..], o, pos + 1), Others(ps[1..]);
        WhoRunLines(nick, channel, ps[1..], o, pos + 1, rest, q');
        forall i | 0 < i < |r.replies|
          ensures r.replies[i] == WhoLine(nick, channel, q[i], o) && r.calls[i] == GetPresence(q[i].id)
        {
          assert r.replies[i] == rest.replies[i - 1] && r.calls[i] == rest.calls[i - 1] && q[i] == q'[i - 1];
        }
      }
    }
  }

  /** The writes of WHO's loop: every write before its last succeeded; it
      failed only on its last write; and when no write failed it wrote one
      line per participant other than the session's own, all of which
      reached the client. */
  lemma {:induction false} WhoRunWrites(nick: string, channel: string, ps: seq<Participant>, o: Oracle,
                                        pos: nat, r: WhoResult, q: seq<Participant>)
    requires r == WhoRun(nick, channel, ps, o, pos) && q == Others(ps)
    ensures forall k :: pos <= k < pos + |r.replies| - 1 ==> o.writeOk(k)
    ensures r.failed ==> |r.replies| > 0 && !o.writeOk(pos + |r.replies| - 1)
    ensures !r.failed ==> |r.replies| == |q| && forall k :: pos <= k < pos + |q| ==> o.writeOk(k)
    decreases |ps|
  {
    if |ps| > 0 {
      if ps[0].isMe {
        WhoRunWrites(nick, channel, ps[1..], o, pos, r, q);
      } else if o.writeOk(pos) {
        var rest, q' := WhoRun(nick, channel, ps[1..], o, pos + 1), Others(ps[1..]);
        WhoRunWrites(nick, channel, ps[1..], o, pos + 1, rest, q');
        assert |r.replies| == |rest.replies| + 1 && r.failed == rest.failed && |q| == |q'| + 1;
      } else {
        assert !o.writeOk(pos + 0);
      }
    }
  }

  /** WHO's loop ends early exactly when one of the writes it would make, one
      per participant other than the session's own, fails. */
  lemma WhoRunFails(nick: string, channel: string, ps: seq<Participant>, o: Oracle, pos: nat)
    ensures var r := WhoRun(nick, channel, ps, o, pos);
      r.failed <==> exists k :: pos <= k < pos + |Others(ps)| && !o.writeOk(k)
  {
    var r, q := WhoRun(nick, channel, ps, o, pos), Others(ps);
    WhoRunLines(nick, channel, ps, o, pos, r, q);
    WhoRunWrites(nick, channel, ps, o, pos, r, q);
    if r.failed {
      assert pos <= pos + |r.replies| - 1 < pos + |q|;
    }
  }

  // ---------------------------------------------------------------- WHOIS

  /** The identifiers of the groups whose conversion succeeded, in order;
      failures are skipped. */
  function Converted(groups: seq<ChatId>, convert: ChatId -> Option<string>): seq<string>
    decreases |groups|
  {
    if |groups| == 0 then []
    else
      var last := groups[|groups| - 1];
      Converted(groups[..|groups| - 1], convert) +
        (match convert(last) case None => [] case Some(x) => [x])
  }

  /** Converted lists an identifier exactly when some group converts to it,
      and loses a group only when its conversion fails. */
  lemma {:induction false} ConvertedSpec(groups: seq<ChatId>, convert: ChatId -> Option<string>)
    ensures |Converted(groups, convert)| <= |groups|
    ensures forall x :: x in Converted(groups, convert) <==>
      exists j :: 0 <= j < |groups| && convert(groups[j]) == Some(x)
    ensures (forall j :: 0 <= j < |groups| ==> convert(groups[j]).Some?) ==>
      |Converted(groups, convert)| == |groups|
    decreases |groups|
  {
    if |groups| > 0 {
      var init := groups[..|groups| - 1];
      ConvertedSpec(init, convert);
      forall x | x in Converted(groups, convert)
        ensures exists j :: 0 <= j < |groups| && convert(groups[j]) == Some(x)
      {
        if x in Converted(init, convert) {
          var j :| 0 <= j < |init| && convert(init[j]) == Some(x);
          assert groups[j] == init[j];
        } else {
          assert convert(groups[|groups| - 1]) == Some(x);
        }
      }
      forall x, j | 0 <= j < |groups| && convert(groups[j]) == Some(x)
        ensures x in Converted(groups, convert)
      {
        if j < |groups| - 1 {
          assert init[j] == groups[j];
        }
      }
    }
  }

  /** Converted keeps the order and the number of the successful
      conversions: its i-th identifier is that of the group at `pos[i]`,
      where `pos` lists, in increasing order, exactly the positions of the
      groups whose conversion succeeds. */
  lemma {:induction false} ConvertedOrder(groups: seq<ChatId>, convert: ChatId -> Option<string>)
    returns (pos: seq<nat>)
    ensures |pos| == |Converted(groups, convert)| && Increasing(pos)
    ensures forall i :: 0 <= i < |pos| ==>
      pos[i] < |groups| && convert(groups[pos[i]]) == Some(Converted(groups, convert)[i])
    ensures forall k :: 0 <= k < |groups| ==> (k in pos <==> convert(groups[k]).Some?)
    decreases |groups|
  {
    if |groups| == 0 {
      pos := [];
    } else {
      var n := |groups| - 1;
      var init := groups[..n];
      var front := ConvertedOrder(init, convert);
      var names := Converted(init, convert);
      forall i | 0 <= i < |front|
        ensures front[i] < n && convert(groups[front[i]]) == Some(names[i])
      {
        assert groups[front[i]] == init[front[i]];
      }
      forall k | 0 <= k < n
        ensures k in front <==> convert(groups[k]).Some?
      {
        assert groups[k] == init[k];
      }
      if convert(groups[n]).Some? {
        assert Converted(groups, convert) == names + [convert(groups[n]).value];
        pos := front + [n];
        assert forall i :: 0 <= i < |front| ==> pos[i] == front[i];
      } else {
        assert Converted(groups, convert) == names;
        pos := front;
      }
    }
  }

  /** The loop of WHOIS that collects the identifiers of the common groups. */
  method CollectIdentifiers(groups: seq<ChatId>, convert: ChatId -> Option<string>)
    returns (names: seq<string>)
    ensures names == Converted(groups, convert)
  {
    names := [];
    var i := 0;
    while i < |groups|
      invariant 0 <= i <= |groups|
      invariant names == Converted(groups[..i], convert)
    {
      assert groups[..i + 1][..i] == groups[..i];
      var converted := convert(groups[i]);
      if converted.Some? {
        names := names + [converted.value];
      }
      i := i + 1;
    }
    assert groups[..i] == groups;
  }

  /** The 319 line of a WHOIS: present only when the common groups were
      fetched without error and there is at least one. */
  function CommonChannels(nick: string, c: Chat, o: Oracle): seq<Reply>
  {
    match o.commonGroups(c.id)
    case GroupsFailed(_) => []
    case Groups(gs) =>
      if |gs| > 0 then [WhoisChannels(nick, c.identifier, Converted(gs, o.convertChat))] else []
  }
}
