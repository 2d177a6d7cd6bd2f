/**
 * The conversation list of the App component and the three pure updaters its
 * send workflow hands to the state setter: append a turn (spread), replace the
 * text of the message with a given id (`map`), remove the messages with a given
 * id (`filter`).
 */
module Conversation {

  datatype Role = User | Model

  datatype Message = Message(id: string, role: Role, text: string)

  /** The seeded greeting the list starts with. */
  const GreetingId: string := "initial"
  const GreetingText: string := "Hello! How can I help you today?"

  /** Text of the model message while no fragment has arrived yet. */
  const Placeholder: string := "..."

  function Ids(ms: seq<Message>): (ids: set<string>)
  {
    set m | m in ms :: m.id
  }

  /** No two messages of the list share an id. */
  predicate UniqueIds(ms: seq<Message>)
  {
    forall i, j :: 0 <= i < j < |ms| ==> ms[i].id != ms[j].id
  }

  /** Both new ids differ from each other and from every id already in the list. */
  predicate FreshIds(ms: seq<Message>, userId: string, modelId: string)
  {
    userId != modelId && userId !in Ids(ms) && modelId !in Ids(ms)
  }

  /**
   * `[...prev, userMessage, {id: modelMessageId, role: 'model', text: '...'}]`:
   * the history is kept as a prefix, followed by the user's message and the
   * model's placeholder.
   */
  function StartTurn(prev: seq<Message>, userId: string, userInput: string, modelId: string): (r: seq<Message>)
    ensures |r| == |prev| + 2 && r[..|prev|] == prev
    ensures r[|prev|] == Message(userId, User, userInput)
    ensures r[|prev| + 1] == Message(modelId, Model, Placeholder)
  {
    prev + [Message(userId, User, userInput), Message(modelId, Model, Placeholder)]
  }

  /** The ids grow by exactly the two new ones, and fresh ids keep them distinct. */
  lemma StartTurnIds(prev: seq<Message>, userId: string, userInput: string, modelId: string)
    ensures Ids(StartTurn(prev, userId, userInput, modelId)) == Ids(prev) + {userId, modelId}
    ensures UniqueIds(prev) && FreshIds(prev, userId, modelId) ==> UniqueIds(StartTurn(prev, userId, userInput, modelId))
  {
    var r := StartTurn(prev, userId, userInput, modelId);
    assert forall m :: m in r <==> m in prev || m == r[|prev|] || m == r[|prev| + 1];
  }

  /**
   * `prev.map(msg => msg.id === id ? {...msg, text: t} : msg)`: same length,
   * every message keeps its id and role, and only the messages with id `id`
   * get the text `t`.
   */
  function ReplaceText(ms: seq<Message>, id: string, t: string): (r: seq<Message>)
    ensures |r| == |ms|
    ensures forall i :: 0 <= i < |ms| ==>
      && r[i].id == ms[i].id && r[i].role == ms[i].role
      && r[i].text == (if ms[i].id == id then t else ms[i].text)
  {
    if ms == [] then []
    else [if ms[0].id == id then ms[0].(text := t) else ms[0]] + ReplaceText(ms[1..], id, t)
  }

  /**
   * `prev.filter(msg => msg.id !== id)`: exactly the messages whose id is not
   * `id` survive, so `id` is gone from the list.
   */
  function RemoveById(ms: seq<Message>, id: string): (r: seq<Message>)
    ensures |r| <= |ms|
    ensures forall m :: m in r <==> m in ms && m.id != id
    ensures Ids(r) == Ids(ms) - {id}
  {
    if ms == [] then []
    else
      var rest := RemoveById(ms[1..], id);
      assert forall m :: m in ms <==> m == ms[0] || m in ms[1..];
      if ms[0].id == id then rest else [ms[0]] + rest
  }

  /** Replacing the text of an id that is not in the list changes nothing. */
  lemma {:induction false} ReplaceTextAbsent(ms: seq<Message>, id: string, t: string)
    requires id !in Ids(ms)
    ensures ReplaceText(ms, id, t) == ms
  {
    if ms != [] {
      assert ms[0] in ms;
      assert Ids(ms[1..]) <= Ids(ms) by {
        forall x | x in Ids(ms[1..]) ensures x in Ids(ms) {
          var m :| m in ms[1..] && m.id == x;
          assert m in ms;
        }
      }
      ReplaceTextAbsent(ms[1..], id, t);
    }
  }

  /** The updater works message by message, so it distributes over concatenation. */
  lemma ReplaceTextAppend(a: seq<Message>, b: seq<Message>, id: string, t: string)
    ensures ReplaceText(a + b, id, t) == ReplaceText(a, id, t) + ReplaceText(b, id, t)
  {
    var l, r := ReplaceText(a + b, id, t), ReplaceText(a, id, t) + ReplaceText(b, id, t);
    assert |l| == |r|;
    forall i | 0 <= i < |l| ensures l[i] == r[i] {
      if i < |a| { assert (a + b)[i] == a[i]; } else { assert (a + b)[i] == b[i - |a|]; }
    }
  }

  /** Two successive replacements on the same id: the last write wins. */
  lemma ReplaceTextTwice(ms: seq<Message>, id: string, t1: string, t2: string)
    ensures ReplaceText(ReplaceText(ms, id, t1), id, t2) == ReplaceText(ms, id, t2)
  {
    var l, r := ReplaceText(ReplaceText(ms, id, t1), id, t2), ReplaceText(ms, id, t2);
    assert |l| == |r|;
    forall i | 0 <= i < |l| ensures l[i] == r[i] {
    }
  }

  /** Removing a message after rewriting its text is the same as removing it straight away. */
  lemma {:induction false} RemoveAfterReplace(ms: seq<Message>, id: string, t: string)
    ensures RemoveById(ReplaceText(ms, id, t), id) == RemoveById(ms, id)
  {
    if ms != [] {
      RemoveAfterReplace(ms[1..], id, t);
      assert ReplaceText(ms, id, t)[1..] == ReplaceText(ms[1..], id, t);
    }
  }

  /** Removing an id that is not in the list changes nothing. */
  lemma {:induction false} RemoveAbsent(ms: seq<Message>, id: string)
    requires id !in Ids(ms)
    ensures RemoveById(ms, id) == ms
  {
    if ms != [] {
      assert ms[0] in ms;
      assert Ids(ms[1..]) <= Ids(ms) by {
        forall x | x in Ids(ms[1..]) ensures x in Ids(ms) {
          var m :| m in ms[1..] && m.id == x;
          assert m in ms;
        }
      }
      RemoveAbsent(ms[1..], id);
      assert ms == [ms[0]] + ms[1..];
    }
  }

  /** Removing keeps the order of the survivors: it distributes over concatenation. */
  lemma {:induction false} RemoveAppend(a: seq<Message>, b: seq<Message>, id: string)
    ensures RemoveById(a + b, id) == RemoveById(a, id) + RemoveById(b, id)
  {
    if a != [] {
      assert (a + b)[1..] == a[1..] + b;
      RemoveAppend(a[1..], b, id);
    } else {
      assert a + b == b;
    }
  }

  /** The filter never makes two messages share an id. */
  lemma {:induction false} RemoveKeepsUniqueIds(ms: seq<Message>, id: string)
    requires UniqueIds(ms)
    ensures UniqueIds(RemoveById(ms, id))
  {
    if ms != [] {
      RemoveKeepsUniqueIds(ms[1..], id);
      var rest := RemoveById(ms[1..], id);
      if ms[0].id != id {
        assert ms[0].id !in Ids(ms[1..]);
        assert ms[0].id !in Ids(rest);
        var r := [ms[0]] + rest;
        forall i, j | 0 <= i < j < |r| ensures r[i].id != r[j].id {
          if i == 0 { assert r[j] in rest; }
          else { assert r[i] == rest[i - 1] && r[j] == rest[j - 1]; }
        }
      }
    }
  }

  /** The map keeps ids, so it keeps them distinct. */
  lemma ReplaceKeepsUniqueIds(ms: seq<Message>, id: string, t: string)
    requires UniqueIds(ms)
    ensures UniqueIds(ReplaceText(ms, id, t))
  {
  }
}
