/**
 * The part of the IMAP client that hands unilateral EXISTS notifications to an
 * IDLE consumer: the registered channel (`idleNotifs`), the `idleMissed` flag,
 * and the buffers of every channel ever registered.
 *
 * Channels are numbered in the order in which Idle creates them.  A handler may
 * keep a channel after its IDLE loop has gone, so old buffers stay in the state.
 */
module ImapClient {
  import opened Common

  const INTERNAL_CAPACITY := 16

  /** What idleMu guards, plus the channel buffers. */
  datatype Mailslot = Mailslot(registered: Option<nat>, missed: bool, buffers: seq<nat>)
  {
    ghost predicate Valid()
    {
      && (registered.Some? ==> registered.value < |buffers|)
      && (forall ch :: 0 <= ch < |buffers| ==> buffers[ch] <= INTERNAL_CAPACITY)
    }

    /** Notifications buffered on the registered channel. */
    function Buffered(): nat
    {
      if registered.Some? && registered.value < |buffers| then buffers[registered.value] else 0
    }

    /** First critical section of the handler: no channel means the flag is set. */
    function Capture(): Mailslot
    {
      if registered.None? then this.(missed := true) else this
    }

    function HasRoom(ch: nat): bool
    {
      ch < |buffers| && buffers[ch] < INTERNAL_CAPACITY
    }

    /** A channel send that found room. */
    function Sent(ch: nat): Mailslot
      requires HasRoom(ch)
    {
      this.(buffers := buffers[ch := buffers[ch] + 1])
    }

    function Received(): Mailslot
      requires Buffered() > 0
    {
      this.(buffers := buffers[registered.value := buffers[registered.value] - 1])
    }

    /** Critical section at the head of Idle: a fresh channel, and the flag taken. */
    function Registered(): Mailslot
    {
      Mailslot(Some(|buffers|), false, buffers + [0])
    }

    function Unregistered(): Mailslot
    {
      this.(registered := None)
    }
  }

  /** The handover between handlers and Idle has no gap, whichever critical section comes
      first: a notification handled before the registration is in the flag Idle takes, one
      handled after it finds a fresh channel with room, and one handled after the loop has
      gone is in the flag again for the next registration. */
  lemma HandoverLosesNothing(s: Mailslot)
    requires s.Valid() && s.registered.None?
    ensures s.Capture().missed
    ensures var t := s.Registered();
      && t.Valid() && !t.missed && t.Buffered() == 0
      && t.Capture() == t && t.HasRoom(t.registered.value) && t.Sent(t.registered.value).Buffered() == 1
    ensures s.Registered().Unregistered().Capture().missed
  {
  }

  /** The client's fields, updated in place by the handler and by the IDLE loop. */
  class Client {
    var idleNotifs: Option<nat>
    var idleMissed: bool
    var buffers: seq<nat>

    ghost function View(): Mailslot
      reads this
    {
      Mailslot(idleNotifs, idleMissed, buffers)
    }

    constructor ()
      ensures View() == Mailslot(None, false, []) && View().Valid()
    {
      idleNotifs, idleMissed, buffers := None, false, [];
    }

    /** Forwards one notification.  Run alone, it is never dropped: it ends in the
        registered buffer, or the flag is up. */
    method PushIdleNotif() returns (delivered: bool)
      requires View().Valid()
      modifies this
      ensures View().Valid() && idleNotifs == old(idleNotifs)
      ensures delivered <==> old(idleNotifs.Some? && View().HasRoom(idleNotifs.value))
      ensures delivered <==> old(idleNotifs.Some? && buffers[idleNotifs.value] < 16)
      ensures delivered ==> View() == old(View().Sent(idleNotifs.value))
      ensures delivered ==>
        && idleMissed == old(idleMissed)
        && buffers == old(buffers[idleNotifs.value := buffers[idleNotifs.value] + 1])
      ensures !delivered ==> View() == old(View()).(missed := true)
      ensures !delivered ==> idleMissed && buffers == old(buffers)
    {
      var ch := idleNotifs;
      if ch.None? {
        idleMissed := true;
        return false;
      }
      if buffers[ch.value] < INTERNAL_CAPACITY {
        buffers := buffers[ch.value := buffers[ch.value] + 1];
        return true;
      }
      idleMissed := true;
      return false;
    }

    /** Registers a fresh channel and takes the flag under one lock. */
    method Register() returns (ch: nat, missed: bool)
      requires View().Valid()
      modifies this
      ensures View() == old(View()).Registered() && View().Valid()
      ensures buffers == old(buffers) + [0] && !idleMissed
      ensures missed == old(idleMissed) && idleNotifs == Some(ch)
      ensures ch == |old(buffers)|
    {
      ch := |buffers|;
      buffers := buffers + [0];
      idleNotifs := Some(ch);
      missed := idleMissed;
      idleMissed := false;
    }

    /** Deferred by the IDLE loop when it exits. */
    method Unregister()
      requires View().Valid()
      modifies this
      ensures View() == old(View()).Unregistered() && View().Valid()
      ensures idleNotifs == None && idleMissed == old(idleMissed) && buffers == old(buffers)
    {
      idleNotifs := None;
    }
  }
}
