/** Compare-and-swap replacement of a configuration file that other programs may write,
    replace or remove between any two file operations. */
module ConfigReplacement {
  import opened Common

  type Bytes = seq<bv8>

  /** What happened at the path. `Put` and `Removed` are other writers; the rest is this code. */
  datatype Event = Put(bytes: Bytes) | Removed | Displaced(bytes: Bytes) | Persisted(bytes: Bytes) | Restored(bytes: Bytes)

  datatype ReplaceError = Changed | Malformed | Io

  predicate Own(e: Event) {
    e.Displaced? || e.Persisted? || e.Restored?
  }

  function Apply(content: Option<Bytes>, e: Event): Option<Bytes> {
    match e
    case Put(bytes) => Some(bytes)
    case Removed => None
    case Displaced(_) => None
    case Persisted(bytes) => Some(bytes)
    case Restored(bytes) => Some(bytes)
  }

  /** Content of the path after a log of events. */
  function Replay(start: Option<Bytes>, log: seq<Event>): Option<Bytes> {
    if log == [] then start else Apply(Replay(start, log[..|log| - 1]), log[|log| - 1])
  }

  /** The same if this code had not run. */
  function OthersOnly(start: Option<Bytes>, log: seq<Event>): Option<Bytes> {
    if log == [] then start
    else
      var before := OthersOnly(start, log[..|log| - 1]);
      if Own(log[|log| - 1]) then before else Apply(before, log[|log| - 1])
  }

  /** No other writer acted. */
  ghost predicate Quiet(log: seq<Event>) {
    forall i :: 0 <= i < |log| ==> Own(log[i])
  }

  lemma QuietLonger(log: seq<Event>, e: Event)
    ensures Quiet(log + [e]) <==> Quiet(log) && Own(e)
  {
    var longer := log + [e];
    assert longer[|log|] == e;
    assert forall i :: 0 <= i < |log| ==> longer[i] == log[i];
  }

  function OwnEvents(log: seq<Event>): seq<Event> {
    if log == [] then []
    else OwnEvents(log[..|log| - 1]) + if Own(log[|log| - 1]) then [log[|log| - 1]] else []
  }

  /** Nothing this code puts at the path lands on a file, what it displaces is what was
      there, and a removal removes something. */
  predicate Possible(content: Option<Bytes>, e: Event) {
    match e
    case Put(_) => true
    case Removed => content.Some?
    case Displaced(bytes) => content == Some(bytes)
    case Persisted(_) => content.None?
    case Restored(_) => content.None?
  }

  predicate Faithful(start: Option<Bytes>, log: seq<Event>) {
    log == []
    || (Faithful(start, log[..|log| - 1]) && Possible(Replay(start, log[..|log| - 1]), log[|log| - 1]))
  }

  /** What a call that changed nothing for good may have done. */
  predicate Undone(own: seq<Event>) {
    own == []
    || (|own| == 1 && own[0].Displaced?)
    || (|own| == 2 && own[0].Displaced? && own[1] == Restored(own[0].bytes))
  }

  lemma {:induction false} UndoneReplay(start: Option<Bytes>, log: seq<Event>)
    requires Faithful(start, log) && Undone(OwnEvents(log))
    ensures var own := OwnEvents(log);
            Replay(start, log) == OthersOnly(start, log)
            || (|own| == 1 && Replay(start, log).None? && OthersOnly(start, log) == Some(own[0].bytes))
            || (|own| == 2 && Replay(start, log) == Some(own[0].bytes) && OthersOnly(start, log).None?)
  {
    if log != [] {
      UndoneReplay(start, log[..|log| - 1]);
    }
  }

  /** How a call that failed with `error` leaves the path: a displaced file is missing from it only
      after a file operation failed. */
  ghost predicate FailedAt(start: Option<Bytes>, log: seq<Event>, error: ReplaceError) {
    Faithful(start, log) && Undone(OwnEvents(log))
    && (|OwnEvents(log)| == 1 && Replay(start, log).None? ==> error == Io)
  }

  /** After a failed call the path is as others left it. The only exceptions: a file operation
      failed, the displaced bytes are not back and nobody has put anything since; or they were put
      back after others had removed what they put in the meantime. */
  lemma FailureIsInvisible(start: Option<Bytes>, log: seq<Event>, error: ReplaceError)
    requires FailedAt(start, log, error)
    ensures var own := OwnEvents(log);
            Replay(start, log) == OthersOnly(start, log)
            || (error == Io && |own| == 1 && Replay(start, log).None? && OthersOnly(start, log) == Some(own[0].bytes))
            || (|own| == 2 && Replay(start, log) == Some(own[0].bytes) && OthersOnly(start, log).None?)
  {
    UndoneReplay(start, log);
  }

  lemma {:induction false} LastPutReplay(start: Option<Bytes>, log: seq<Event>, i: nat)
    requires Faithful(start, log) && Undone(OwnEvents(log))
    requires i < |log| && log[i].Put? && forall j :: i < j < |log| ==> Own(log[j])
    ensures Replay(start, log) == Some(log[i].bytes)
            || (OwnEvents(log) == [Displaced(log[i].bytes)] && Replay(start, log).None?)
  {
    if i < |log| - 1 {
      LastPutReplay(start, log[..|log| - 1], i);
    }
  }

  /** What another writer put last is still there, unless a file operation failed after it was
      displaced: no failed call overwrites it or moves it for good. */
  lemma LastPutSurvives(start: Option<Bytes>, log: seq<Event>, error: ReplaceError, i: nat)
    requires FailedAt(start, log, error)
    requires i < |log| && log[i].Put? && forall j :: i < j < |log| ==> Own(log[j])
    ensures Replay(start, log) == Some(log[i].bytes)
            || (error == Io && OwnEvents(log) == [Displaced(log[i].bytes)] && Replay(start, log).None?)
  {
    LastPutReplay(start, log, i);
  }

  /** A successful call displaced exactly the reviewed bytes, or found no file when none was reviewed. */
  predicate Swapped(own: seq<Event>, expected: Option<Bytes>, contents: Bytes) {
    own == (if expected.Some? then [Displaced(expected.value)] else []) + [Persisted(contents)]
  }

  /** Where the last event of this code stands in the log, and that it was possible there. */
  lemma {:induction false} LastOwn(start: Option<Bytes>, log: seq<Event>) returns (p: nat)
    requires Faithful(start, log) && OwnEvents(log) != []
    ensures p < |log| && Faithful(start, log[..p]) && Possible(Replay(start, log[..p]), log[p])
    ensures OwnEvents(log) == OwnEvents(log[..p]) + [log[p]]
    ensures forall j :: p < j < |log| ==> !Own(log[j])
  {
    if Own(log[|log| - 1]) {
      p := |log| - 1;
    } else {
      p := LastOwn(start, log[..|log| - 1]);
      assert log[..|log| - 1][..p] == log[..p];
    }
  }

  /** A successful replacement created the file where none was (`p`), after taking away a file
      with exactly the reviewed bytes (`d`) if any were reviewed; everything else at the path was
      done by others. */
  lemma SuccessIsASwap(start: Option<Bytes>, log: seq<Event>, expected: Option<Bytes>, contents: Bytes)
    returns (d: nat, p: nat)
    requires Faithful(start, log) && Swapped(OwnEvents(log), expected, contents)
    ensures p < |log| && log[p] == Persisted(contents) && Replay(start, log[..p]).None?
    ensures expected.Some? ==> d < p && log[d] == Displaced(expected.value) && Replay(start, log[..d]) == expected
    ensures forall j :: 0 <= j < |log| && Own(log[j]) ==> j == p || (expected.Some? && j == d)
  {
    hide Faithful, Replay, OwnEvents;
    d := 0;
    p := LastOwn(start, log);
    var before, own := log[..p], OwnEvents(log);
    assert own[|own| - 1] == log[p] && own[..|own| - 1] == OwnEvents(before);
    if expected.Some? {
      assert OwnEvents(before) == [Displaced(expected.value)];
      d := LastOwn(start, before);
      assert OwnEvents(before)[|OwnEvents(before)| - 1] == before[d];
      assert before[..d] == log[..d];
      NoOwnEvents(before[..d]);
    } else {
      NoOwnEvents(before);
    }
  }

  lemma {:induction false} NoOwnEvents(log: seq<Event>)
    requires OwnEvents(log) == []
    ensures forall j :: 0 <= j < |log| ==> !Own(log[j])
  {
    if log != [] {
      NoOwnEvents(log[..|log| - 1]);
    }
  }

  /** The path, the file set aside, and the history of the path since `start`. On a `reliable` path
      no file operation fails of itself. */
  class ConfigPath {
    const reliable: bool
    var content: Option<Bytes>
    var aside: Option<Bytes>
    ghost var start: Option<Bytes>
    ghost var log: seq<Event>
    ghost var foreign: bool

    constructor (present: Option<Bytes>, reliable: bool)
      ensures Valid() && this.reliable == reliable && log == [] && start == content == present && aside == None && !foreign
    {
      this.reliable := reliable;
      content, aside, start, log, foreign := present, None, present, [], false;
    }

    ghost predicate Valid()
      reads this
    {
      Faithful(start, log) && content == Replay(start, log) && (foreign <==> !Quiet(log))
    }

    ghost method Note(e: Event)
      requires Faithful(start, log) && Possible(Replay(start, log), e)
      modifies this`log, this`foreign
      ensures Faithful(start, log) && Replay(start, log) == Apply(old(Replay(start, log)), e)
      ensures OwnEvents(log) == OwnEvents(old(log)) + if Own(e) then [e] else []
      ensures foreign == (old(foreign) || !Own(e)) && (Quiet(log) <==> Quiet(old(log)) && Own(e))
    {
      QuietLonger(log, e);
      hide Quiet, Possible;
      log, foreign := log + [e], foreign || !Own(e);
      assert log[..|log| - 1] == old(log);
    }

    /** Other writers act any number of times. */
    method Interfere()
      requires Valid()
      modifies this`content, this`log, this`foreign
      ensures Valid() && OwnEvents(log) == OwnEvents(old(log))
      ensures !foreign ==> !old(foreign) && content == old(content)
    {
      hide Quiet;
      var more: nat :| true;
      for _ := 0 to more
        invariant Valid() && OwnEvents(log) == OwnEvents(old(log))
        invariant !foreign ==> !old(foreign) && content == old(content)
      {
        if * {
          var bytes: Bytes := *;
          Note(Put(bytes));
          content := Some(bytes);
        } else if content.Some? {
          Note(Removed);
          content := None;
        }
      }
    }

    /** `rename` of the path to the name set aside. */
    method Displace() returns (r: Result<(), ReplaceError>)
      requires Valid()
      modifies this
      ensures Valid() && start == old(start)
      ensures r.Ok? ==> aside.Some? && OwnEvents(log) == OwnEvents(old(log)) + [Displaced(aside.value)]
      ensures r.Err? ==> aside == old(aside) && OwnEvents(log) == OwnEvents(old(log)) && r.error in {Changed, Io}
      ensures !foreign ==> !old(foreign) && (r.Ok? ==> aside == old(content) && content.None?)
                             && (r.Err? ==> content == old(content) && (r.error == Changed ==> content.None?))
      ensures reliable && r.Err? ==> r.error == Changed
    {
      hide Quiet;
      Interfere();
      if content.None? {
        return Err(Changed);
      }
      var failing := *;
      if failing && !reliable {
        return Err(Io);
      }
      Note(Displaced(content.value));
      content, aside := None, content;
      return Ok(());
    }

    /** Puts the file set aside back unless something is there; taken as one step. */
    method Restore() returns (r: Result<(), ReplaceError>)
      requires Valid() && aside.Some?
      modifies this
      ensures Valid() && start == old(start)
      ensures (OwnEvents(log) == OwnEvents(old(log)) && aside == old(aside))
              || (OwnEvents(log) == OwnEvents(old(log)) + [Restored(old(aside).value)] && aside == None)
      ensures r.Ok? ==> content.Some?
      ensures !foreign ==> !old(foreign)
      ensures r.Err? ==> r.error == Io && OwnEvents(log) == OwnEvents(old(log))
      ensures reliable ==> r.Ok?
    {
      hide Quiet;
      Interfere();
      if content.Some? {
        return Ok(());
      }
      var failing := *;
      if failing && !reliable {
        return Err(Io);
      }
      Note(Restored(aside.value));
      content, aside := aside, None;
      return Ok(());
    }

    /** `persist_noclobber`: creates the file only if none is there. */
    method PersistNoClobber(contents: Bytes) returns (r: Result<(), ReplaceError>)
      requires Valid()
      modifies this`content, this`log, this`foreign
      ensures Valid()
      ensures OwnEvents(log) == OwnEvents(old(log)) + if r.Ok? then [Persisted(contents)] else []
      ensures r.Err? ==> r.error in {Changed, Io}
      ensures !foreign ==> !old(foreign) && (r == Err(Changed) ==> old(content).Some?)
      ensures reliable && r.Err? ==> r.error == Changed
    {
      hide Quiet;
      Interfere();
      if content.Some? {
        return Err(Changed);
      }
      var failing := *;
      if failing && !reliable {
        return Err(Io);
      }
      Note(Persisted(contents));
      content := Some(contents);
      return Ok(());
    }

    /** Reading the path, which may fail; nothing stops others before or after. */
    method Read() returns (r: Result<Option<Bytes>, ReplaceError>)
      requires Valid()
      modifies this`content, this`log, this`foreign
      ensures Valid() && OwnEvents(log) == OwnEvents(old(log))
      ensures !foreign ==> content == old(content) && !old(foreign) && (r.Ok? ==> r.value == content)
      ensures r.Err? ==> r.error == Io && !(reliable && !foreign)
    {
      hide Quiet;
      Interfere();
      var present := content.Some?;
      Interfere();
      if !present {
        return Ok(None);
      }
      var unreadable := *;
      if content.None? || (unreadable && !reliable) {
        return Err(Io);
      }
      return Ok(content);
    }

    /** Sets the current file aside and accepts it only if it holds the reviewed bytes. */
    method TakeAside(expected: Bytes) returns (r: Result<(), ReplaceError>)
      requires Valid() && OwnEvents(log) == []
      modifies this
      ensures Valid() && start == old(start)
      ensures r.Ok? ==> aside == Some(expected) && OwnEvents(log) == [Displaced(expected)]
      ensures r.Err? ==> FailedAt(start, log, r.error)
      ensures r.Err? && |OwnEvents(log)| == 1 ==> aside == Some(OwnEvents(log)[0].bytes)
      ensures r.Err? ==> r.error in {Changed, Io}
      ensures !foreign ==> !old(foreign) && (r == Err(Changed) ==> old(content) != Some(expected))
                             && (r.Ok? ==> content.None?)
      ensures reliable && r.Err? ==> r.error == Changed
    {
      hide Quiet;
      r := Displace();
      if r.Err? {
        return;
      }
      Interfere();
      var unreadable := *;
      unreadable := unreadable && !reliable;
      if unreadable || aside != Some(expected) {
        var restored := Restore();
        return Err(if restored.Err? then restored.error else if unreadable then Io else Changed);
      }
      return Ok(());
    }

    /** The checks before anything is touched: the new contents parse and the file holds the reviewed bytes. */
    method Review(expected: Option<Bytes>, encodesJson: bool) returns (r: Result<(), ReplaceError>)
      requires Valid()
      modifies this`content, this`log, this`foreign
      ensures Valid() && OwnEvents(log) == OwnEvents(old(log))
      ensures r.Ok? ==> encodesJson
      ensures r == Err(Malformed) ==> !encodesJson
      ensures !foreign ==> !old(foreign) && content == old(content)
                           && (r == Err(Changed) ==> content != expected) && (r.Ok? ==> content == expected)
      ensures reliable && !foreign ==>
                r == if !encodesJson then Err(Malformed) else if content != expected then Err(Changed) else Ok(())
    {
      hide Quiet;
      Interfere();
      var failing := *;
      if failing && !reliable {
        return Err(Io);
      }
      if !encodesJson {
        return Err(Malformed);
      }
      var actual := Read();
      if actual.Err? {
        return Err(actual.error);
      }
      if actual.value != expected {
        return Err(Changed);
      }
      Interfere();
      return Ok(());
    }

    /** Creates the file, after the reviewed one was set aside, or puts that one back. */
    method Install(expected: Option<Bytes>, contents: Bytes) returns (r: Result<(), ReplaceError>)
      requires Valid() && (expected.Some? ==> aside == expected)
      requires OwnEvents(log) == if expected.Some? then [Displaced(expected.value)] else []
      modifies this
      ensures Valid() && start == old(start)
      ensures r.Ok? ==> Swapped(OwnEvents(log), expected, contents)
      ensures r.Err? ==> FailedAt(start, log, r.error) && r.error in {Changed, Io}
      ensures r.Err? && |OwnEvents(log)| == 1 ==> expected == Some(OwnEvents(log)[0].bytes)
      ensures !foreign ==> !old(foreign) && (old(content).None? ==> r != Err(Changed) && (reliable ==> r.Ok?))
    {
      hide Quiet;
      r := PersistNoClobber(contents);
      if r.Err? && expected.Some? {
        Interfere();
        if content.Some? {
          aside := None;
        } else {
          var restored := Restore();
          if restored.Err? {
            return restored;
          }
        }
      }
      if r.Ok? {
        aside := None;
        Interfere();
      }
    }

    /** The whole replacement. `encodesJson` says whether `contents` parses. */
    method Replace(expected: Option<Bytes>, contents: Bytes, encodesJson: bool) returns (r: Result<(), ReplaceError>)
      requires Valid() && log == []
      modifies this
      ensures Valid() && start == old(start)
      ensures r.Ok? ==> encodesJson && Swapped(OwnEvents(log), expected, contents)
      ensures r.Err? ==> FailedAt(start, log, r.error)
      ensures r.Err? && |OwnEvents(log)| == 1 ==>
                aside == Some(OwnEvents(log)[0].bytes) || expected == Some(OwnEvents(log)[0].bytes)
      ensures r == Err(Malformed) ==> !encodesJson
      ensures r == Err(Changed) ==> start != expected || !Quiet(log)
      ensures reliable && Quiet(log) ==>
                (r.Ok? <==> encodesJson && start == expected)
                && (r.Err? ==> r.error == if encodesJson then Changed else Malformed)
    {
      hide Quiet;
      r := Review(expected, encodesJson);
      if r.Err? {
        return;
      }
      if expected.Some? {
        r := TakeAside(expected.value);
        if r.Err? {
          return;
        }
      }
      r := Install(expected, contents);
    }
  }
}
