/** Flash messages (infogami/utils/flash.py): messages queued during one request and shown
    on the next page displayed, carried between requests in the "flash" cookie. JSON
    encoding of the cookie is not part of this model: the cookie is given as the value
    decoding gives (None when it is not valid JSON), and a written cookie as the list of
    messages it holds. */
module Flash {
  import opened Wrappers
  import opened Json

  /** A message: the dictionary it is stored as. */
  type Message = seq<(string, Value)>

  /** `web.storage(type=type, message=message)`. */
  function MessageOf(typ: string, message: string): (m: Message)
    ensures HasKey(m, "type") && HasKey(m, "message")
  {
    var m := [("type", Str(typ)), ("message", Str(message))];
    assert Keys(m)[0] == "type" && Keys(m)[1] == "message";
    m
  }

  /** A cookie entry that is kept: a dictionary with a "type" and a "message". */
  predicate Wellformed(v: Value) {
    v.Dict? && HasKey(v.entries, "type") && HasKey(v.entries, "message")
  }

  /** The kept entries, in order. */
  function KeepMessages(items: seq<Value>): (r: seq<Message>)
    ensures |r| <= |items|
    ensures forall k :: 0 <= k < |r| ==> HasKey(r[k], "type") && HasKey(r[k], "message")
  {
    if items == [] then []
    else if Wellformed(items[0]) then [items[0].entries] + KeepMessages(items[1..])
    else KeepMessages(items[1..])
  }

  /** The messages of the cookie: bad JSON reads as none; iterating a dictionary or a string
      yields no dictionaries; None or a number cannot be iterated (TypeError). */
  function CookieMessages(parsed: Option<Value>): (r: Result<seq<Message>, string>)
    ensures parsed.None? ==> r == Ok([])
    ensures parsed.Some? && parsed.value.List? ==> r == Ok(KeepMessages(parsed.value.items))
    ensures r.Err? <==> parsed.Some? && (parsed.value.Null? || parsed.value.Bool? || parsed.value.Int? || parsed.value.Float?)
  {
    match parsed
    case None => Ok([])
    case Some(v) =>
      match v
      case List(items) => Ok(KeepMessages(items))
      case Dict(_) => Ok([])
      case Str(_) => Ok([])
      case Text(_) => Ok([])
      case Ref(_) => Ok([])
      case Null => Err("TypeError")
      case Bool(_) => Err("TypeError")
      case Int(_) => Err("TypeError")
      case Float(_) => Err("TypeError")
  }

  /** Messages written to the cookie come back as they were on the next request. */
  lemma {:induction false} CookieRoundTrip(msgs: seq<Message>)
    requires forall k :: 0 <= k < |msgs| ==> HasKey(msgs[k], "type") && HasKey(msgs[k], "message")
    ensures KeepMessages(seq(|msgs|, k requires 0 <= k < |msgs| => Dict(msgs[k]))) == msgs
  {
    if msgs != [] {
      var items := seq(|msgs|, k requires 0 <= k < |msgs| => Dict(msgs[k]));
      CookieRoundTrip(msgs[1..]);
      DictsTail(msgs);
      assert Wellformed(items[0]);
      assert KeepMessages(items) == [msgs[0]] + KeepMessages(items[1..]);
      assert msgs == [msgs[0]] + msgs[1..];
    }
  }

  /** The cookie list of a queue starts with the first message and goes on with the rest. */
  lemma DictsTail(msgs: seq<Message>)
    requires msgs != []
    ensures var items := seq(|msgs|, k requires 0 <= k < |msgs| => Dict(msgs[k]));
      items[0] == Dict(msgs[0]) && items[1..] == seq(|msgs| - 1, k requires 0 <= k < |msgs| - 1 => Dict(msgs[1..][k]))
  {
  }

  /** `web.ctx`'s flash list, absent before anything touches it. */
  class Context {
    var flash: Option<seq<Message>>

    constructor ()
      ensures flash.None?
    {
      flash := None;
    }

    function Queued(): seq<Message>
      reads this
    {
      if flash.Some? then flash.value else []
    }

    /** `add_flash_message(type, message)`: appended to the queue. */
    method AddFlashMessage(typ: string, message: string)
      modifies this
      ensures flash == Some(old(Queued()) + [MessageOf(typ, message)])
    {
      var q := Queued();
      flash := Some(q + [MessageOf(typ, message)]);
    }

    /** `get_flash_messages()`: everything queued, and the queue emptied. */
    method GetFlashMessages() returns (r: seq<Message>)
      modifies this
      ensures r == old(Queued()) && flash == Some([])
    {
      r := Queued();
      flash := Some([]);
    }
  }

  /** What the request handler does with the queue: add a message, or display the queue. */
  datatype Step = Add(typ: string, message: string) | Show

  /** The queue after the steps, and what each display showed. */
  function RunSteps(q: seq<Message>, steps: seq<Step>): (r: (seq<Message>, seq<seq<Message>>))
  {
    if steps == [] then (q, [])
    else
      var prev := RunSteps(q, steps[..|steps| - 1]);
      match steps[|steps| - 1]
      case Add(t, m) => (prev.0 + [MessageOf(t, m)], prev.1)
      case Show => ([], prev.1 + [prev.0])
  }

  /** What happens to the cookie at the end of the request. */
  datatype CookieWrite = Unchanged | SetCookie(messages: seq<Message>) | Expire

  /** The write-back rule: only a changed queue is written, and an empty one expires the
      cookie. */
  function WriteBack(before: seq<Message>, after: seq<Message>): (w: CookieWrite)
    ensures w == Unchanged <==> before == after
    ensures w == Expire <==> before != after && after == []
    ensures w.SetCookie? ==> w.messages == after && after != []
  {
    if before == after then Unchanged else if after != [] then SetCookie(after) else Expire
  }

  /** `flash_processor(handler)`: the cookie's messages are queued, the handler runs, and
      the queue goes back to the cookie if it changed. */
  method FlashProcessor(ctx: Context, parsed: Option<Value>, steps: seq<Step>)
      returns (w: Result<CookieWrite, string>, shown: seq<seq<Message>>)
    modifies ctx
    ensures CookieMessages(parsed).Err? ==> w == Err(CookieMessages(parsed).error) && shown == []
    ensures CookieMessages(parsed).Ok? ==>
      var initial := CookieMessages(parsed).value;
      var run := RunSteps(initial, steps);
      ctx.flash == Some(run.0) && shown == run.1 && w == Ok(WriteBack(initial, run.0))
  {
    var cookie := CookieMessages(parsed);
    if cookie.Err? {
      return Err(cookie.error), [];
    }
    var initial := cookie.value;
    ctx.flash := Some(initial);
    shown := [];
    for i := 0 to |steps|
      invariant ctx.flash == Some(RunSteps(initial, steps[..i]).0) && shown == RunSteps(initial, steps[..i]).1
    {
      assert steps[..i + 1][..i] == steps[..i];
      match steps[i] {
        case Add(t, m) => ctx.AddFlashMessage(t, m);
        case Show =>
          var r := ctx.GetFlashMessages();
          shown := shown + [r];
      }
    }
    assert steps[..|steps|] == steps;
    w := Ok(WriteBack(initial, ctx.Queued()));
  }

  /** A message added and then displayed is shown after the ones already queued, and the
      queue is empty afterwards. */
  lemma AddThenShow(q: seq<Message>, typ: string, message: string)
    ensures RunSteps(q, [Add(typ, message), Show]) == ([], [q + [MessageOf(typ, message)]])
  {
    var s1 := [Add(typ, message)];
    var s2 := s1 + [Show];
    assert s2 == [Add(typ, message), Show];
    assert s2[..1] == s1 && s2[1] == Show;
    assert s1[..0] == [];
    assert RunSteps(q, s1) == (q + [MessageOf(typ, message)], []);
    var prev := RunSteps(q, s1);
    assert |s2| - 1 == 1;
    assert RunSteps(q, s2) == ([], prev.1 + [prev.0]);
    assert prev.1 + [prev.0] == [q + [MessageOf(typ, message)]];
  }

  /** Messages are displayed once: when the last thing a request does is display the
      queue, a cookie that held messages is expired. */
  lemma {:induction false} ShownOnce(q: seq<Message>, steps: seq<Step>)
    requires q != []
    ensures WriteBack(q, RunSteps(q, steps + [Show]).0) == Expire
  {
    assert (steps + [Show])[..|steps|] == steps;
  }

  /** A message added and not displayed is written to the cookie, after the ones queued. */
  lemma {:induction false} AddedIsSaved(q: seq<Message>, typ: string, message: string)
    ensures WriteBack(q, RunSteps(q, [Add(typ, message)]).0) == SetCookie(q + [MessageOf(typ, message)])
  {
    assert [Add(typ, message)][..0] == [];
    assert |q + [MessageOf(typ, message)]| != |q|;
  }
}
