// What the application is told of headers, however they are cut.
module HttpStories {
  import opened HttpTypes
  import opened HttpReference
  import opened HttpFields
  import opened HttpHeaders

  // ----- data and headers -----

  function HeaderTold(h: Header): seq<Event> { [Data(Field, h.name), Data(Value, Joined(h.lines))] }

  function HeadersTold(hs: seq<Header>): seq<Event> {
    if hs == [] then [] else HeadersTold(hs[..|hs| - 1]) + HeaderTold(hs[|hs| - 1])
  }

  // Data byte by byte and its end tell the same as the data at once.
  lemma DataStory(h: seq<Event>, k: DataKind, b: seq<Octet>)
    ensures Story(h + (Bytes(k, b) + [Data(k, [])])) == Story(h + [Data(k, b)])
  {
    hide Story;
    if b == [] {
      assert Bytes(k, b) + [Data(k, [])] == [Data(k, b)];
    } else {
      StoryBytes(h, k, b);
      StoryCat(h + Bytes(k, b), h + [Data(k, b)], [Data(k, [])]);
      StoryJoin(h, k, b, []);
      assert b + [] == b;
      assert h + (Bytes(k, b) + [Data(k, [])]) == h + Bytes(k, b) + [Data(k, [])];
    }
  }

  // The lines of a value are told as one value.
  lemma {:induction false} LinesStory(h: seq<Event>, ls: seq<Line>)
    requires ls != []
    ensures Story(h + LinesEvents(ls)) == Story(h + [Data(Value, Joined(ls))])
  {
    hide Story;
    var n := |ls| - 1;
    var some, l := ls[..n], ls[n];
    if n == 0 {
      assert some == [];
      assert LinesEvents(ls) == [] + LineEvents(l) == LineEvents(l);
      assert Joined(ls) == [] + l.text == l.text;
      DataStory(h, Value, l.text);
    } else {
      var a := h + [Data(Value, Joined(some))];
      LinesStory(h, some);
      StoryCat(h + LinesEvents(some), a, LineEvents(l));
      DataStory(a, Value, l.text);
      StoryJoin(h, Value, Joined(some), l.text);
      assert h + LinesEvents(ls) == h + LinesEvents(some) + LineEvents(l);
    }
  }

  lemma HeaderStory(h: seq<Event>, x: Header)
    requires x.lines != []
    ensures Story(h + HeaderEvents(x)) == Story(h + HeaderTold(x))
  {
    hide Story, LinesEvents, Joined;
    var field, value := Bytes(Field, x.name) + [Data(Field, [])], LinesEvents(x.lines);
    DataStory(h, Field, x.name);
    StoryCat(h + field, h + [Data(Field, x.name)], value);
    LinesStory(h + [Data(Field, x.name)], x.lines);
    assert h + HeaderEvents(x) == h + field + value;
    assert h + HeaderTold(x) == h + [Data(Field, x.name)] + [Data(Value, Joined(x.lines))];
  }

  // Headers are told one after another, each with its name and its value.
  lemma {:induction false} HeadersStory(h: seq<Event>, hs: seq<Header>)
    requires HeadersOk(hs)
    ensures Story(h + HeadersEvents(hs)) == Story(h + HeadersTold(hs))
  {
    hide Story, HeaderEvents, HeaderTold, LinesOk, IsName;
    if hs != [] {
      var n := |hs| - 1;
      var some, x := hs[..n], hs[n];
      HeadersStory(h, some);
      StoryCat(h + HeadersEvents(some), h + HeadersTold(some), HeaderEvents(x));
      HeaderStory(h + HeadersTold(some), x);
      assert h + HeadersEvents(hs) == h + HeadersEvents(some) + HeaderEvents(x);
      assert h + HeadersTold(hs) == h + HeadersTold(some) + HeaderTold(x);
    }
  }

  // The same, in the middle of a log.
  lemma HeadersWithin(h: seq<Event>, hs: seq<Header>, more: seq<Event>)
    requires HeadersOk(hs)
    ensures Story(h + HeadersEvents(hs) + more) == Story(h + HeadersTold(hs) + more)
  {
    hide Story, HeadersOk, HeadersEvents, HeadersTold;
    HeadersStory(h, hs);
    StoryCat(h + HeadersEvents(hs), h + HeadersTold(hs), more);
  }

  // ----- logs that are their own story -----

  // No two pieces of the same data are next to each other.
  predicate Distinct(log: seq<Event>) {
    forall i :: 0 <= i < |log| - 1 ==> !(log[i].Data? && log[i + 1].Data? && log[i].kind == log[i + 1].kind)
  }

  lemma {:induction false} StoryOfDistinct(log: seq<Event>)
    requires Distinct(log)
    ensures Story(log) == log
  {
    if log != [] {
      var n := |log| - 1;
      StoryOfDistinct(log[..n]);
      assert log == log[..n] + [log[n]];
    }
  }

  lemma DistinctSnoc(log: seq<Event>, e: Event)
    requires Distinct(log) && (log != [] && e.Data? ==> !(log[|log| - 1].Data? && log[|log| - 1].kind == e.kind))
    ensures Distinct(log + [e])
  {
  }

  predicate EndsInName(log: seq<Event>) { log != [] && log[|log| - 1].Data? && log[|log| - 1].kind.Field? }

  lemma {:induction false} HeadersDistinct(h: seq<Event>, hs: seq<Header>)
    requires Distinct(h) && !EndsInName(h)
    ensures Distinct(h + HeadersTold(hs)) && !EndsInName(h + HeadersTold(hs))
  {
    hide Distinct, Joined;
    if hs != [] {
      var n := |hs| - 1;
      HeadersDistinct(h, hs[..n]);
      var log, x := h + HeadersTold(hs[..n]), HeaderTold(hs[n]);
      DistinctSnoc(log, x[0]);
      DistinctSnoc(log + [x[0]], x[1]);
      assert h + HeadersTold(hs) == log + [x[0]] + [x[1]];
    } else {
      assert h + HeadersTold(hs) == h;
    }
  }
}
