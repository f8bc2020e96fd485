/**
 * The conversation history the GUI sends to its local language model
 * (`llm_history_append`, `llm_history_clear`): at most 20 messages, the
 * oldest dropped by a shift to the left when a 21st arrives, each role
 * cut to 15 bytes and each content to 4095.
 */
module LlmHistory {
  import opened CStrings

  const MaxHistory: int := 20
  const RoleSize: int := 16
  const MaxContent: int := 4096

  datatype Message = Message(role: string, content: string)

  /** The message a slot holds once role and content are copied into its fixed fields. */
  function Stored(role: string, content: string): (m: Message)
    ensures |m.role| < RoleSize && m.role <= role && |m.content| < MaxContent && m.content <= content
  {
    Message(Truncate(role, RoleSize), Truncate(content, MaxContent))
  }

  /** The newest MaxHistory messages of a sequence. */
  function Newest(s: seq<Message>): (r: seq<Message>)
    ensures |r| == if |s| <= MaxHistory then |s| else MaxHistory
    ensures |s| <= MaxHistory ==> r == s
  {
    if |s| <= MaxHistory then s else s[|s| - MaxHistory..]
  }

  /** The history after appending each of ms in turn to h. */
  function Replay(h: seq<Message>, ms: seq<Message>): seq<Message>
    decreases |ms|
  {
    if |ms| == 0 then h else Replay(Newest(h + [ms[0]]), ms[1..])
  }

  /** Whatever arrives, the history holds the newest MaxHistory messages of everything since the last clear. */
  lemma {:induction false} ReplayNewest(h: seq<Message>, ms: seq<Message>)
    requires |h| <= MaxHistory
    ensures Replay(h, ms) == Newest(h + ms)
    decreases |ms|
  {
    if |ms| > 0 {
      var h' := Newest(h + [ms[0]]);
      ReplayNewest(h', ms[1..]);
      NewestConcat(h + [ms[0]], ms[1..]);
      assert (h + [ms[0]]) + ms[1..] == h + ms;
    }
  }

  /** The newest messages of a concatenation only depend on the newest of its left part. */
  lemma NewestConcat(s: seq<Message>, t: seq<Message>)
    ensures Newest(Newest(s) + t) == Newest(s + t)
  {
    if |s| > MaxHistory {
      var k := |s| - MaxHistory;
      assert Newest(s) + t == (s + t)[k..];
    }
  }

  class History {
    const slots: array<Message>
    var count: int

    predicate Valid()
      reads this
    {
      slots.Length == MaxHistory && 0 <= count <= MaxHistory
    }

    /** The messages held, oldest first. */
    function Messages(): seq<Message>
      reads this, slots
      requires Valid()
    {
      slots[..count]
    }

    constructor ()
      ensures Valid() && Messages() == [] && fresh(slots)
    {
      slots := new Message[MaxHistory](_ => Message("", ""));
      count := 0;
    }

    /** llm_history_clear. */
    method Clear()
      requires Valid()
      modifies this
      ensures Valid() && Messages() == []
    {
      count := 0;
    }

    /** The shift of a full history by one slot to the left; the last slot keeps its old value. */
    method DropOldest()
      requires Valid() && count == MaxHistory
      modifies this, slots
      ensures Valid() && count == MaxHistory - 1 && Messages() == old(Messages())[1..]
    {
      var i := 0;
      while i < MaxHistory - 1
        invariant 0 <= i <= MaxHistory - 1
        invariant slots[..i] == old(slots[1..i + 1])
        invariant forall k :: i <= k < MaxHistory ==> slots[k] == old(slots[k])
      {
        slots[i] := slots[i + 1];
        i := i + 1;
      }
      count := MaxHistory - 1;
    }

    /** llm_history_append: a full history first drops its oldest message. */
    method Append(role: string, content: string)
      requires Valid()
      modifies this, slots
      ensures Valid() && Messages() == Newest(old(Messages()) + [Stored(role, content)])
    {
      ghost var before := Messages();
      var m := Stored(role, content);
      if count >= MaxHistory {
        DropOldest();
      }
      ghost var mid := Messages();
      assert Newest(before + [m]) == mid + [m] by {
        if |before| == MaxHistory {
          assert mid + [m] == (before + [m])[1..];
        }
      }
      var n := count;
      slots[n] := m;
      assert slots[..n] == mid;
      assert slots[..n + 1] == mid + [m];
      count := n + 1;
    }
  }
}
