/**
 * The change-history log of the planner page (class ChangeHistoryTracker in app.js):
 * a newest-first list of change entries, cut back to the most recent 100 after
 * every logged change.
 */
module ChangeHistory {

  /** The signed-in user a change is attributed to. */
  datatype User = User(username: string, role: string)

  /**
   * One logged change. `id` and `timestamp` stand for the random id and the
   * wall-clock time the page generates; the caller supplies them.
   */
  datatype LogEntry = LogEntry(id: int, timestamp: int, kind: string, details: string, user: string, userRole: string)

  /** The cap that logging a change enforces. */
  const MaxEntries: nat := 100

  /** The limit `getHistory` uses when it is called without one. */
  const DefaultLimit: int := 20

  /** The first `n` elements of `s`, or all of `s` when it is shorter. */
  function Take<T>(s: seq<T>, n: nat): (r: seq<T>)
    ensures |r| == if |s| < n then |s| else n
    ensures r == s[..|r|]
  {
    if |s| <= n then s else s[..n]
  }

  /** The elements of `s` in reverse order. */
  function Reverse<T>(s: seq<T>): (r: seq<T>)
    ensures |r| == |s|
  {
    if s == [] then [] else Reverse(s[1..]) + [s[0]]
  }

  /**
   * Where `Array.prototype.slice(0, end)` stops on a list of length `len`:
   * a negative `end` counts back from the end of the list.
   */
  function SliceEnd(len: nat, end: int): (k: nat)
    ensures k <= len
    ensures 0 <= end ==> k == if end < len then end else len
    ensures end < 0 ==> k == if len + end < 0 then 0 else len + end
  {
    if end < 0 then (if len + end < 0 then 0 else len + end)
    else if end < len then end
    else len
  }

  /**
   * The history after logging `e` on history `h`: `e` goes in front and the
   * list is cut back to `MaxEntries`, dropping the oldest entries.
   */
  function Logged(h: seq<LogEntry>, e: LogEntry): (r: seq<LogEntry>)
    ensures |r| == if |h| < MaxEntries then |h| + 1 else MaxEntries
    ensures r[0] == e
    ensures r[1..] == h[..|r| - 1]
  {
    var u := [e] + h;
    if |u| > MaxEntries then u[..MaxEntries] else u
  }

  /** The history after logging the entries of `es`, `es[0]` first, on history `h`. */
  function LogAll(h: seq<LogEntry>, es: seq<LogEntry>): seq<LogEntry>
    decreases |es|
  {
    if es == [] then h else LogAll(Logged(h, es[0]), es[1..])
  }

  /** Cutting back after prepending loses nothing that cutting back earlier kept. */
  lemma {:induction false} TakeAfterPrepend<T>(a: seq<T>, b: seq<T>, n: nat)
    ensures Take(a + Take(b, n), n) == Take(a + b, n)
  {
    if |a| >= n {
      assert (a + Take(b, n))[..n] == a[..n] == (a + b)[..n];
    } else if |b| > n {
      var m := |Take(a + b, n)|;
      assert (a + Take(b, n))[..m] == (a + b)[..m];
    }
  }

  /** The first element of a reversed list is the last of the original. */
  lemma {:induction false} ReverseHead<T>(s: seq<T>)
    requires |s| > 0
    ensures Reverse(s)[0] == s[|s| - 1]
  {
    if |s| > 1 {
      ReverseHead(s[1..]);
    }
  }

  /** Logging one entry is prepending it and cutting back to the cap. */
  lemma LoggedIsTake(h: seq<LogEntry>, e: LogEntry)
    ensures Logged(h, e) == Take([e] + h, MaxEntries)
  {
  }

  /**
   * However many entries have been logged since `h` was loaded, the history
   * holds the newest `MaxEntries` of them (and of `h`), newest first.
   */
  lemma {:induction false} LogAllKeepsNewest(h: seq<LogEntry>, es: seq<LogEntry>)
    requires |es| > 0
    ensures LogAll(h, es) == Take(Reverse(es) + h, MaxEntries)
    decreases |es|
  {
    var e, rest := es[0], es[1..];
    var h' := Logged(h, e);
    assert LogAll(h, es) == LogAll(h', rest);
    assert Reverse(es) == Reverse(rest) + [e];
    LoggedIsTake(h, e);
    if rest == [] {
      assert LogAll(h', rest) == h';
      assert Reverse(es) + h == [e] + h;
    } else {
      LogAllKeepsNewest(h', rest);
      TakeAfterPrepend(Reverse(rest), [e] + h, MaxEntries);
      assert Reverse(rest) + ([e] + h) == Reverse(es) + h;
    }
  }

  /** After at least one logged change the cap holds and the latest change is in front. */
  lemma LogAllBounded(h: seq<LogEntry>, es: seq<LogEntry>)
    requires |es| > 0
    ensures 0 < |LogAll(h, es)| <= MaxEntries
    ensures LogAll(h, es)[0] == es[|es| - 1]
  {
    LogAllKeepsNewest(h, es);
    ReverseHead(es);
  }

  /** The page's change log; `history` is the newest-first list of entries. */
  class ChangeHistoryTracker {
    var history: seq<LogEntry>

    /** Starts from the history found in storage; its length is not checked here. */
    constructor (stored: seq<LogEntry>)
      ensures history == stored
    {
      history := stored;
    }

    /** Records a change made by `user`, newest first, keeping at most `MaxEntries`. */
    method LogChange(id: int, timestamp: int, kind: string, details: string, user: User)
      modifies this
      ensures history == Logged(old(history), LogEntry(id, timestamp, kind, details, user.username, user.role))
      ensures |history| <= MaxEntries
      ensures history[0].id == id && history[0].user == user.username
    {
      var entry := LogEntry(id, timestamp, kind, details, user.username, user.role);
      history := [entry] + history;
      if |history| > MaxEntries {
        history := history[..MaxEntries];
      }
    }

    /** The newest entries, as many as `limit` asks for (JavaScript slice semantics). */
    method GetHistory(limit: int := DefaultLimit) returns (r: seq<LogEntry>)
      ensures 0 <= limit ==> |r| == if limit < |history| then limit else |history|
      ensures limit < 0 ==> |r| == if |history| + limit < 0 then 0 else |history| + limit
      ensures r == history[..|r|]
    {
      r := history[..SliceEnd(|history|, limit)];
    }

    /** Empties the log. */
    method ClearHistory()
      modifies this
      ensures history == []
    {
      history := [];
    }
  }
}
