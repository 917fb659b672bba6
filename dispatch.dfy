/**
 * The channel registry and dispatcher: which backends are active, the ordered
 * message listeners, the button listeners by id, and the fan-out of sends and
 * hooks to the backends that own a column or can reach an account.
 */
module Dispatch {
  import opened Wrappers
  import opened JavaText
  import opened Players
  import opened Social

  /** What one backend constructor produced: an initialisation failure, or a backend and its `isEnabled()`. */
  datatype Construction = InitFailure | Constructed(backend: Backend, enabled: bool)

  /** The backends that were constructed and report themselves enabled, in constructor order. */
  function EnabledBackends(cs: seq<Construction>): (r: seq<Backend>)
    ensures |r| <= |cs|
  {
    if cs == [] then []
    else
      var last := cs[|cs| - 1];
      EnabledBackends(cs[..|cs| - 1]) + (if last.Constructed? && last.enabled then [last.backend] else [])
  }

  /** A backend is active exactly when some constructor built it and it is enabled. */
  lemma {:induction false} EnabledBackendsMembers(cs: seq<Construction>, b: Backend)
    ensures b in EnabledBackends(cs) <==> Constructed(b, true) in cs
  {
    if cs != [] {
      var init := cs[..|cs| - 1];
      EnabledBackendsMembers(init, b);
      assert cs == init + [cs[|cs| - 1]];
    }
  }

  // ---------------------------------------------------------------------------
  // Fan-out, as functions of the active backends

  /** `broadcastMessage(dbField, id, ...)`: one send per active backend whose column is `f`. */
  function FieldSends(cs: seq<Backend>, f: DbField, id: Long, content: Msg, buttons: Keyboard, v: ButtonVisibility): seq<Send> {
    if cs == [] then []
    else
      var c := cs[|cs| - 1];
      FieldSends(cs[..|cs| - 1], f, id, content, buttons, v)
        + (if c.DbField() == f then [SendMessage(c, id, content, buttons, v)] else [])
  }

  /** `broadcastMessage(player, ...)`: one send per active backend that can reach the account. */
  function PlayerSends(cs: seq<Backend>, p: PlayerRow, content: Msg, buttons: Keyboard, v: ButtonVisibility): seq<Send> {
    if cs == [] then []
    else
      var c := cs[|cs| - 1];
      PlayerSends(cs[..|cs| - 1], p, content, buttons, v)
        + (if c.CanSend(p) then [SendToPlayer(c, p, content, buttons, v)] else [])
  }

  /** `unregisterHook(player)`, or with `only` set `unregisterHook(only.value, player)`. */
  function RemovedHooks(cs: seq<Backend>, only: Option<DbField>, p: PlayerRow): seq<Hook> {
    if cs == [] then []
    else
      var c := cs[|cs| - 1];
      RemovedHooks(cs[..|cs| - 1], only, p)
        + (if c.CanSend(p) && (only.None? || c.DbField() == only.value) then [PlayerRemoved(c, p)] else [])
  }

  /** `registerHook(dbField, id)`: every active backend whose column is `f` gets `onPlayerAdded(id)`. */
  function AddedHooks(cs: seq<Backend>, f: DbField, id: Long): seq<Hook> {
    if cs == [] then []
    else
      var c := cs[|cs| - 1];
      AddedHooks(cs[..|cs| - 1], f, id) + (if c.DbField() == f then [PlayerAdded(c, id)] else [])
  }

  /** A send to an identity goes to exactly the active backends owning column `f`, with the given id and content. */
  lemma {:induction false} FieldSendsMembers(cs: seq<Backend>, f: DbField, id: Long, content: Msg, buttons: Keyboard, v: ButtonVisibility, s: Send)
    ensures s in FieldSends(cs, f, id, content, buttons, v) <==>
      s.backend in cs && s.backend.DbField() == f && s == SendMessage(s.backend, id, content, buttons, v)
  {
    if cs != [] {
      var init := cs[..|cs| - 1];
      var c := cs[|cs| - 1];
      var last := if c.DbField() == f then [SendMessage(c, id, content, buttons, v)] else [];
      FieldSendsMembers(init, f, id, content, buttons, v, s);
      assert cs == init + [c];
      assert s.backend in cs <==> s.backend in init || s.backend == c;
      assert s in FieldSends(cs, f, id, content, buttons, v) <==> s in FieldSends(init, f, id, content, buttons, v) || s in last;
    }
  }

  /** A send to an account goes to exactly the active backends that can reach it, at the id it has there. */
  lemma {:induction false} PlayerSendsMembers(cs: seq<Backend>, p: PlayerRow, content: Msg, buttons: Keyboard, v: ButtonVisibility, s: Send)
    ensures s in PlayerSends(cs, p, content, buttons, v) <==>
      s.backend in cs && s.backend.CanSend(p) && s == SendToPlayer(s.backend, p, content, buttons, v)
  {
    if cs != [] {
      var init := cs[..|cs| - 1];
      PlayerSendsMembers(init, p, content, buttons, v, s);
      assert cs == init + [cs[|cs| - 1]];
    }
  }

  /**
   * Removal hooks run on exactly the active backends that can reach the account
   * and, for the field variant, own that field.
   */
  lemma {:induction false} RemovedHooksMembers(cs: seq<Backend>, only: Option<DbField>, p: PlayerRow, h: Hook)
    ensures h in RemovedHooks(cs, only, p) <==>
      h.PlayerRemoved? && h.backend in cs && h.backend.CanSend(p) && h.player == p
      && (only.None? || h.backend.DbField() == only.value)
  {
    if cs != [] {
      var init := cs[..|cs| - 1];
      RemovedHooksMembers(init, only, p, h);
      assert cs == init + [cs[|cs| - 1]];
    }
  }

  /** Link hooks run on exactly the active backends owning the field; reachability is not asked. */
  lemma {:induction false} AddedHooksMembers(cs: seq<Backend>, f: DbField, id: Long, h: Hook)
    ensures h in AddedHooks(cs, f, id) <==> h.PlayerAdded? && h.backend in cs && h.backend.DbField() == f && h.id == id
  {
    if cs != [] {
      var init := cs[..|cs| - 1];
      AddedHooksMembers(init, f, id, h);
      assert cs == init + [cs[|cs| - 1]];
    }
  }

  /** An account with no id is reached by no backend and gets no removal hook. */
  lemma {:induction false} NoIdNoFanOut(cs: seq<Backend>, p: PlayerRow, only: Option<DbField>, content: Msg, buttons: Keyboard, v: ButtonVisibility)
    requires !p.HasAnyId()
    ensures PlayerSends(cs, p, content, buttons, v) == []
    ensures RemovedHooks(cs, only, p) == []
  {
    if cs != [] {
      NoIdNoFanOut(cs[..|cs| - 1], p, only, content, buttons, v);
      assert p.IdFor(cs[|cs| - 1].DbField()).None?;
    }
  }

  /** A backend only fires the field-restricted removal hook for an account that has an id in that field. */
  lemma {:induction false} NoIdNoFieldHook(cs: seq<Backend>, p: PlayerRow, f: DbField)
    requires p.IdFor(f).None?
    ensures RemovedHooks(cs, Some(f), p) == []
  {
    if cs != [] {
      NoIdNoFieldHook(cs[..|cs| - 1], p, f);
      var c := cs[|cs| - 1];
      assert c.DbField() == f ==> !c.CanSend(p);
    }
  }

  // ---------------------------------------------------------------------------

  class SocialManager {
    var socialList: seq<Backend>
    var messageEvents: seq<MessageListener>
    var buttonEvents: map<string, ButtonListener>

    /** Keeps the backends that construct and are enabled; construction failures are skipped. */
    constructor (constructors: seq<Construction>)
      ensures socialList == EnabledBackends(constructors)
      ensures messageEvents == [] && buttonEvents == map[]
    {
      var list: seq<Backend> := [];
      for i := 0 to |constructors|
        invariant list == EnabledBackends(constructors[..i])
      {
        assert constructors[..i + 1][..i] == constructors[..i];
        var c := constructors[i];
        if c.Constructed? && c.enabled {
          list := list + [c.backend];
        }
      }
      assert constructors[..|constructors|] == constructors;
      socialList := list;
      messageEvents := [];
      buttonEvents := map[];
    }

    /** `onMessageReceived`: every listener, in registration order, gets the same arguments. */
    method OnMessageReceived(f: DbField, id: Long, message: string) returns (calls: seq<MessageCall>)
      ensures |calls| == |messageEvents|
      ensures forall i :: 0 <= i < |calls| ==> calls[i] == MessageCall(messageEvents[i], f, id, message)
    {
      calls := [];
      for i := 0 to |messageEvents|
        invariant |calls| == i
        invariant forall k :: 0 <= k < i ==> calls[k] == MessageCall(messageEvents[k], f, id, message)
      {
        calls := calls + [MessageCall(messageEvents[i], f, id, message)];
      }
    }

    /** `onButtonClicked`: the one listener registered under `buttonId`, or nothing for an unknown id. */
    method OnButtonClicked(f: DbField, id: Long, buttonId: string) returns (call: Option<ButtonCall>)
      ensures buttonId !in buttonEvents ==> call == None
      ensures buttonId in buttonEvents ==> call == Some(ButtonCall(buttonEvents[buttonId], f, id))
    {
      if buttonId in buttonEvents {
        call := Some(ButtonCall(buttonEvents[buttonId], f, id));
      } else {
        call := None;
      }
    }

    /** `proceedMessage` of a backend: its arguments reach the dispatcher unchanged. */
    method ProceedMessage(f: DbField, id: Long, message: string) returns (calls: seq<MessageCall>)
      ensures |calls| == |messageEvents|
      ensures forall i :: 0 <= i < |calls| ==> calls[i] == MessageCall(messageEvents[i], f, id, message)
    {
      calls := OnMessageReceived(f, id, message);
    }

    /** `proceedButton` of a backend: its arguments reach the dispatcher unchanged. */
    method ProceedButton(f: DbField, id: Long, buttonId: string) returns (call: Option<ButtonCall>)
      ensures call.Some? <==> buttonId in buttonEvents
      ensures call.Some? ==> call.value.field == f && call.value.id == id && call.value.listener == buttonEvents[buttonId]
    {
      call := OnButtonClicked(f, id, buttonId);
    }

    method AddMessageEvent(listener: MessageListener)
      modifies this
      ensures messageEvents == old(messageEvents) + [listener]
      ensures socialList == old(socialList) && buttonEvents == old(buttonEvents)
    {
      messageEvents := messageEvents + [listener];
    }

    /** Replaces any listener registered under the same id. */
    method AddButtonEvent(buttonId: string, listener: ButtonListener)
      modifies this
      ensures buttonEvents == old(buttonEvents)[buttonId := listener]
      ensures socialList == old(socialList) && messageEvents == old(messageEvents)
    {
      buttonEvents := buttonEvents[buttonId := listener];
    }

    /** After removal the id is unknown. */
    method RemoveButtonEvent(buttonId: string)
      modifies this
      ensures buttonEvents == old(buttonEvents) - {buttonId}
      ensures buttonId !in buttonEvents
      ensures socialList == old(socialList) && messageEvents == old(messageEvents)
    {
      buttonEvents := buttonEvents - {buttonId};
    }

    /** `unregisterHook(player)`: `onPlayerRemoved` on every active backend that can reach the account. */
    method UnregisterHook(p: PlayerRow) returns (hooks: seq<Hook>)
      ensures hooks == RemovedHooks(socialList, None, p)
    {
      hooks := [];
      for i := 0 to |socialList|
        invariant hooks == RemovedHooks(socialList[..i], None, p)
      {
        assert socialList[..i + 1][..i] == socialList[..i];
        if socialList[i].CanSend(p) {
          hooks := hooks + [PlayerRemoved(socialList[i], p)];
        }
      }
      assert socialList[..|socialList|] == socialList;
    }

    /** `unregisterHook(dbField, player)`: as above, restricted to the backends owning `f`. */
    method UnregisterHookFor(f: DbField, p: PlayerRow) returns (hooks: seq<Hook>)
      ensures hooks == RemovedHooks(socialList, Some(f), p)
    {
      hooks := [];
      for i := 0 to |socialList|
        invariant hooks == RemovedHooks(socialList[..i], Some(f), p)
      {
        assert socialList[..i + 1][..i] == socialList[..i];
        if socialList[i].CanSend(p) && socialList[i].DbField() == f {
          hooks := hooks + [PlayerRemoved(socialList[i], p)];
        }
      }
      assert socialList[..|socialList|] == socialList;
    }

    /** `registerHook(dbField, id)`: `onPlayerAdded(id)` on every active backend owning `f`. */
    method RegisterHook(f: DbField, id: Long) returns (hooks: seq<Hook>)
      ensures hooks == AddedHooks(socialList, f, id)
    {
      hooks := [];
      for i := 0 to |socialList|
        invariant hooks == AddedHooks(socialList[..i], f, id)
      {
        assert socialList[..i + 1][..i] == socialList[..i];
        if socialList[i].DbField() == f {
          hooks := hooks + [PlayerAdded(socialList[i], id)];
        }
      }
      assert socialList[..|socialList|] == socialList;
    }

    /** `broadcastMessage(player, message, buttons, visibility)`. */
    method BroadcastToPlayer(p: PlayerRow, content: Msg, buttons: Keyboard, v: ButtonVisibility) returns (sends: seq<Send>)
      ensures sends == PlayerSends(socialList, p, content, buttons, v)
    {
      sends := [];
      for i := 0 to |socialList|
        invariant sends == PlayerSends(socialList[..i], p, content, buttons, v)
      {
        assert socialList[..i + 1][..i] == socialList[..i];
        if socialList[i].CanSend(p) {
          sends := sends + [SendToPlayer(socialList[i], p, content, buttons, v)];
        }
      }
      assert socialList[..|socialList|] == socialList;
    }

    /** `broadcastMessage(player, message, buttons)`: the default visibility. */
    method BroadcastToPlayerDefault(p: PlayerRow, content: Msg, buttons: Keyboard) returns (sends: seq<Send>)
      ensures sends == PlayerSends(socialList, p, content, buttons, Default)
    {
      sends := BroadcastToPlayer(p, content, buttons, Default);
    }

    /** `broadcastMessage(player, message)`: no buttons, the default visibility. */
    method BroadcastToPlayerText(p: PlayerRow, content: Msg) returns (sends: seq<Send>)
      ensures sends == PlayerSends(socialList, p, content, [], Default)
    {
      sends := BroadcastToPlayer(p, content, [], Default);
    }

    /** `broadcastMessage(dbField, id, message, buttons, visibility)`. */
    method BroadcastTo(f: DbField, id: Long, content: Msg, buttons: Keyboard, v: ButtonVisibility) returns (sends: seq<Send>)
      ensures sends == FieldSends(socialList, f, id, content, buttons, v)
    {
      sends := [];
      for i := 0 to |socialList|
        invariant sends == FieldSends(socialList[..i], f, id, content, buttons, v)
      {
        assert socialList[..i + 1][..i] == socialList[..i];
        if socialList[i].DbField() == f {
          sends := sends + [SendMessage(socialList[i], id, content, buttons, v)];
        }
      }
      assert socialList[..|socialList|] == socialList;
    }

    /** `broadcastMessage(dbField, id, message, buttons)`: the default visibility. */
    method BroadcastToDefault(f: DbField, id: Long, content: Msg, buttons: Keyboard) returns (sends: seq<Send>)
      ensures sends == FieldSends(socialList, f, id, content, buttons, Default)
    {
      sends := BroadcastTo(f, id, content, buttons, Default);
    }

    /** `broadcastMessage(dbField, id, message)`: no buttons, the default visibility. */
    method BroadcastToText(f: DbField, id: Long, content: Msg) returns (sends: seq<Send>)
      ensures sends == FieldSends(socialList, f, id, content, [], Default)
    {
      sends := BroadcastTo(f, id, content, [], Default);
    }
  }
}
