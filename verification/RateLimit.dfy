/**
 The per-host limiter: waiters poll under a mutex, sleep outside it and poll again; a provider
 may postpone a host meanwhile.  Times are readings of one monotone clock, in clock units; every
 reading the code takes is taken while it holds the mutex.
 */
module RateLimit {
  type Host = string

  /** One critical section: a waiter's check (`checked`, then `stamped` if granted) or a deferral. */
  datatype Event =
    | Poll(host: Host, checked: int, stamped: int)
    | Postpone(host: Host, now: int, wait: int)

  type Table = map<Host, int>

  predicate Granted(delay: int, last: Table, host: Host, now: int) {
    host in last ==> last[host] + delay <= now
  }

  function Step(delay: int, last: Table, e: Event): Table {
    match e
    case Poll(host, checked, stamped) =>
      if Granted(delay, last, host, checked) then last[host := stamped] else last
    case Postpone(host, now, wait) =>
      if wait > 0 && (host in last ==> now + wait - delay > last[host]) then last[host := now + wait - delay] else last
  }

  /** The limiter's critical sections, on its own fields. */
  class HostLimiter {
    const delay: int
    var lastRequest: Table

    constructor (delay: int)
      ensures this.delay == delay && lastRequest == map[]
    {
      this.delay := delay;
      lastRequest := map[];
    }

    /** One turn of the loop of `WaitContext` between Lock and Unlock; `wait` is the sleep before the next turn. */
    method Poll(host: Host, checked: int, stamped: int) returns (granted: bool, wait: int)
      requires delay > 0 && checked <= stamped
      modifies this
      ensures lastRequest == Step(delay, old(lastRequest), Event.Poll(host, checked, stamped))
      ensures granted == Granted(delay, old(lastRequest), host, checked)
      ensures !granted ==> wait > 0 && Granted(delay, lastRequest, host, checked + wait)
    {
      wait := if host in lastRequest then lastRequest[host] + delay - checked else 0;
      granted := wait <= 0;
      if granted {
        lastRequest := lastRequest[host := stamped];
      }
    }

    method Defer(host: Host, now: int, wait: int)
      modifies this
      ensures lastRequest == Step(delay, old(lastRequest), Postpone(host, now, wait))
    {
      if wait <= 0 {
        return;
      }
      var next := now + wait - delay;
      if host !in lastRequest || next > lastRequest[host] {
        lastRequest := lastRequest[host := next];
      }
    }
  }

  // ----- every interleaving

  function First(e: Event): int { if e.Poll? then e.checked else e.now }

  function Last(e: Event): int { if e.Poll? then e.stamped else e.now }

  /** The clock never runs backwards from one critical section to the next, nor inside one. */
  ghost predicate Monotone(events: seq<Event>) {
    && (forall i | 0 <= i < |events| :: First(events[i]) <= Last(events[i]))
    && (forall i, j | 0 <= i < j < |events| :: Last(events[i]) <= First(events[j]))
  }

  function After(delay: int, events: seq<Event>, n: nat): Table
    requires n <= |events|
  {
    if n == 0 then map[] else Step(delay, After(delay, events, n - 1), events[n - 1])
  }

  predicate IsGrant(delay: int, events: seq<Event>, i: nat)
    requires i < |events|
  {
    events[i].Poll? && Granted(delay, After(delay, events, i), events[i].host, events[i].checked)
  }

  /** The moment before which event `i` keeps its host closed, if it does. */
  predicate Closes(delay: int, events: seq<Event>, i: nat, host: Host)
    requires i < |events|
  {
    events[i].host == host && (IsGrant(delay, events, i) || (events[i].Postpone? && events[i].wait > 0))
  }

  function OpensAt(delay: int, e: Event): int {
    match e
    case Poll(_, _, stamped) => stamped + delay
    case Postpone(_, now, wait) => now + wait
  }

  /** The table holds exactly the latest reopening time that past events ask for. */
  ghost predicate Exact(delay: int, events: seq<Event>, n: nat, host: Host)
    requires n <= |events|
  {
    var last := After(delay, events, n);
    && (forall i | 0 <= i < n && Closes(delay, events, i, host) ::
          host in last && OpensAt(delay, events[i]) <= last[host] + delay)
    && (host in last ==>
          exists i | 0 <= i < n :: Closes(delay, events, i, host) && OpensAt(delay, events[i]) == last[host] + delay)
  }

  lemma {:induction false} TableIsExact(delay: int, events: seq<Event>, n: nat, host: Host)
    requires delay > 0 && Monotone(events) && n <= |events|
    ensures Exact(delay, events, n, host)
  {
    if n > 0 {
      TableIsExact(delay, events, n - 1, host);
      var before, last := After(delay, events, n - 1), After(delay, events, n);
      var e := events[n - 1];
      if last != before && e.host == host {
        assert Closes(delay, events, n - 1, host) && OpensAt(delay, e) == last[host] + delay;
      } else if host in last {
        var i :| 0 <= i < n - 1 && Closes(delay, events, i, host) && OpensAt(delay, events[i]) == before[host] + delay;
      }
    }
  }

  /**
   A waiter is granted exactly when every earlier grant of its host is at least `delay` old and every
   earlier deferral of its host has expired: nothing is let through early and nobody waits for nothing.
   */
  lemma GrantedExactly(delay: int, events: seq<Event>, j: nat)
    requires delay > 0 && Monotone(events) && j < |events| && events[j].Poll?
    ensures IsGrant(delay, events, j) <==>
            forall i | 0 <= i < j && Closes(delay, events, i, events[j].host) ::
              OpensAt(delay, events[i]) <= events[j].checked
  {
    TableIsExact(delay, events, j, events[j].host);
  }

  /** Recorded grants of one host are at least `delay` apart, whatever happens in between. */
  lemma GrantsAreSpaced(delay: int, events: seq<Event>, i: nat, j: nat)
    requires delay > 0 && Monotone(events) && i < j < |events|
    requires IsGrant(delay, events, i) && IsGrant(delay, events, j) && events[i].host == events[j].host
    ensures events[j].stamped - events[i].stamped >= delay
  {
    GrantedExactly(delay, events, j);
    assert Closes(delay, events, i, events[j].host);
  }

  /** No grant is recorded before a deferral made earlier expires. */
  lemma DeferralIsKept(delay: int, events: seq<Event>, i: nat, j: nat)
    requires delay > 0 && Monotone(events) && i < j < |events|
    requires events[i].Postpone? && events[i].wait > 0
    requires IsGrant(delay, events, j) && events[i].host == events[j].host
    ensures events[j].stamped >= events[i].now + events[i].wait
  {
    GrantedExactly(delay, events, j);
    assert Closes(delay, events, i, events[j].host);
  }

  /** The recorded time of a host never decreases. */
  lemma {:induction false} NeverDecreases(delay: int, events: seq<Event>, i: nat, j: nat, host: Host)
    requires delay > 0 && Monotone(events) && i <= j <= |events| && host in After(delay, events, i)
    ensures host in After(delay, events, j) && After(delay, events, i)[host] <= After(delay, events, j)[host]
  {
    if i < j {
      NeverDecreases(delay, events, i, j - 1, host);
    }
  }
}
