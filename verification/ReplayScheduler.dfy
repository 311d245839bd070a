/** The cooperative event-boundary scheduler of the replaying JVM agent.

    `Decide` is what one pass of the wait loop of `before` concludes from the monitor's fields.
    The class keeps those fields and changes them as the Java object does; the transition
    system of `ReplayProtocol` interleaves calls of the same two operations by many threads.
 */
module ReplayScheduler {

  /** One line of the schedule file. */
  datatype Entry = Entry(category: string, threadKey: string)

  /** Method boundaries are scheduled as calls; every other raw type is its own category. */
  function Category(rawType: string): string {
    if rawType in ["METHOD_ENTER", "METHOD_EXIT", "CALL"] then "CALL" else rawType
  }

  datatype JvmThread = JvmThread(isVirtual: bool, name: string)

  /** Java's `Character.isWhitespace`. */
  predicate IsWhitespace(c: char) {
    var code := c as int;
    || 0x09 <= code <= 0x0D || 0x1C <= code <= 0x20 || code == 0x1680
    || 0x2000 <= code <= 0x2006 || 0x2008 <= code <= 0x200A
    || code in [0x2028, 0x2029, 0x205F, 0x3000]
  }

  predicate IsBlank(s: string) {
    forall i :: 0 <= i < |s| ==> IsWhitespace(s[i])
  }

  /** The stable key under which a thread's events are recorded and scheduled. */
  function ThreadKey(thread: JvmThread): string {
    (if thread.isVirtual then "virtual:" else "platform:") + (if IsBlank(thread.name) then "<unnamed>" else thread.name)
  }

  lemma {:induction false} NameOfKey(thread: JvmThread)
    ensures ThreadKey(thread)[0] == (if thread.isVirtual then 'v' else 'p') && |ThreadKey(thread)| >= 9
    ensures (ThreadKey(thread))[(if thread.isVirtual then 8 else 9)..] == if IsBlank(thread.name) then "<unnamed>" else thread.name
  {
    var prefix := if thread.isVirtual then "virtual:" else "platform:";
    var name := if IsBlank(thread.name) then "<unnamed>" else thread.name;
    assert ThreadKey(thread) == prefix + name;
    assert IsBlank("");
    assert (prefix + name)[|prefix|..] == name;
  }

  /** A thread without a name of its own. A thread may also be called by the text that stands for a
      missing name, and then cannot be told from one that has none. */
  predicate Nameless(thread: JvmThread) {
    IsBlank(thread.name) || thread.name == "<unnamed>"
  }

  /** Which threads share a key, exactly: threads of one kind that have the same name, or none. */
  lemma {:induction false} KeysTellThreadsApart(a: JvmThread, b: JvmThread)
    ensures ThreadKey(a) == ThreadKey(b) <==>
            a.isVirtual == b.isVirtual && (a.name == b.name || (Nameless(a) && Nameless(b)))
  {
    NameOfKey(a);
    NameOfKey(b);
    assert "<unnamed>"[0] == '<' && !IsWhitespace('<');
    assert !IsBlank("<unnamed>");
  }

  datatype Verdict =
    | Pass      // the caller may emit
    | Block     // the caller waits, and may time out or be interrupted
    | Exceeded  // every scheduled event has been emitted
    | Mismatch  // the caller's turn, but a different category was recorded

  function Decide(expected: seq<Entry>, cursor: nat, writing: bool, rawType: string, threadKey: string): Verdict {
    if expected == [] then Pass
    else if cursor < |expected| && (writing || expected[cursor].threadKey != threadKey) then Block
    else if cursor >= |expected| then Exceeded
    else if expected[cursor].category != Category(rawType) then Mismatch
    else Pass
  }

  class Scheduler {
    const expected: seq<Entry>
    var cursor: nat
    var writing: bool

    constructor (entries: seq<Entry>)
      ensures expected == entries && cursor == 0 && !writing
    {
      expected := entries;
      cursor, writing := 0, false;
    }

    /** One wake-up of `before`: the loop either waits again or leaves with an outcome. While events
        remain, a caller waits exactly as long as another is writing or the next one belongs to
        another thread; then it passes exactly if its category is the recorded one. */
    method Before(rawType: string, threadKey: string) returns (verdict: Verdict)
      modifies this`writing
      ensures expected == [] ==> verdict == Pass
      ensures expected != [] ==> (verdict.Exceeded? <==> cursor >= |expected|)
      ensures verdict.Block? <==> cursor < |expected| && (old(writing) || expected[cursor].threadKey != threadKey)
      ensures expected != [] ==>
        (verdict.Pass? <==>
         cursor < |expected| && !old(writing) && expected[cursor] == Entry(Category(rawType), threadKey))
      ensures verdict == Decide(expected, cursor, old(writing), rawType, threadKey)
      ensures writing == (old(writing) || (verdict.Pass? && expected != []))
    {
      if expected == [] {
        return Pass;
      }
      var category := Category(rawType);
      if cursor < |expected| && (writing || expected[cursor].threadKey != threadKey) {
        return Block;
      }
      if cursor >= |expected| {
        return Exceeded;
      }
      if expected[cursor].category != category {
        return Mismatch;
      }
      writing := true;
      return Pass;
    }

    method After()
      modifies this
      ensures expected == [] ==> cursor == old(cursor) && writing == old(writing)
      ensures expected != [] ==> cursor == old(cursor) + 1 && !writing
    {
      if expected == [] {
        return;
      }
      cursor := cursor + 1;
      writing := false;
    }
  }
}
