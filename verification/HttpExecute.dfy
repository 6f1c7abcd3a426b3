// http_parser_execute over whole buffers, with data handed over in pieces as
// long as possible, against the parser that is fed one byte at a time.
module HttpExecute {
  import opened HttpTypes
  import opened HttpStep
  import opened HttpReference

  // Where the data not yet handed over begins in the buffer.
  type Marks = map<DataKind, nat>

  // The marks that a new buffer starts with.
  function Entry(s: State): Marks {
    if Group(s).Some? then map[Group(s).value := 0] else map[]
  }

  function NewMarks(act: Act, marks: Marks, i: nat): Marks {
    match act
    case Mark(k) => if k in marks then marks else marks[k := i]
    case Emit(k) => marks - {k}
    case Blank(k) => marks - {k}
    case _ => marks
  }

  predicate Within(marks: Marks, i: nat) { forall k :: k in marks ==> marks[k] <= i }

  // CALLBACK_DATA
  function Piece(k: DataKind, marks: Marks, data: seq<Octet>, i: nat): seq<Event>
    requires Within(marks, i) && i <= |data|
  {
    if k in marks then [Data(k, data[marks[k]..i])] else []
  }

  function Said(act: Act, marks: Marks, data: seq<Octet>, i: nat): seq<Event>
    requires Within(marks, i) && i <= |data|
  {
    match act
    case Emit(k) => Piece(k, marks, data, i)
    case Blank(k) => [Data(k, data[if k in marks then marks[k] else i..i])]
    case Note(n) => [Notify(n)]
    case _ => []
  }

  // At most one mark, and which one.
  ghost predicate MarksOk(s: State, marks: Marks, i: nat) {
    && Within(marks, i)
    && (if Group(s).Some? then marks.Keys == {Group(s).value}
        else if s.ChunkDataAlmostDone? then marks.Keys <= {Body} && (Body in marks ==> marks[Body] < i)
        else marks.Keys == {})
  }

  // Data taken in and not yet handed over.
  ghost function Pending(marks: Marks, data: seq<Octet>, i: nat): (r: seq<Event>)
    requires i <= |data|
    ensures |r| <= 1
  {
    if exists k :: k in marks && marks[k] < i then
      var k :| k in marks && marks[k] < i;
      [Data(k, data[marks[k]..i])]
    else []
  }

  lemma PendingOne(k: DataKind, marks: Marks, data: seq<Octet>, i: nat)
    requires i <= |data| && marks.Keys == {k} && marks[k] <= i
    ensures Pending(marks, data, i) == if marks[k] < i then [Data(k, data[marks[k]..i])] else []
  {
    if exists j :: j in marks && marks[j] < i {
      var j :| j in marks && marks[j] < i;
      assert j in marks.Keys && j == k;
    } else {
      assert k in marks;
    }
  }

  lemma PendingNone(marks: Marks, data: seq<Octet>, i: nat)
    requires i <= |data| && marks.Keys == {}
    ensures Pending(marks, data, i) == []
  {
    assert forall k :: k in marks ==> k in marks.Keys;
  }

  // The acts of one look at byte i that leaves no data open.
  lemma NothingOpen(s: State, act: Act, s': State, marks: Marks, data: seq<Octet>, i: nat, h: seq<Event>)
    requires Shape(s, act, s') && Group(s').None? && i < |data| && MarksOk(s, marks, i)
    ensures NewMarks(act, marks, i).Keys == {}
    ensures Story(h + Said(act, marks, data, i)) == Story(h + Pending(marks, data, i) + Tell(act))
  {
    hide Story, Pending;
    if act.Emit? && act.kind in marks {
      HandedOver(act.kind, marks, data, i, h);
    } else {
      assert act.Emit? ==> act.kind !in marks.Keys;
      PendingNone(marks, data, i);
      assert h + [] == h;
      assert data[i..i] == [];
    }
  }

  lemma HandedOver(k: DataKind, marks: Marks, data: seq<Octet>, i: nat, h: seq<Event>)
    requires i < |data| && marks.Keys == {k} && marks[k] <= i && (k.Body? ==> marks[k] < i)
    ensures Story(h + Piece(k, marks, data, i)) == Story(h + Pending(marks, data, i) + Tell(Emit(k)))
  {
    hide Story, Pending;
    var piece := data[marks[k]..i];
    PendingOne(k, marks, data, i);
    assert h + [] == h;
    assert piece + [] == piece;
    StoryJoin(h, k, piece, []);
    assert h + [Data(k, piece)] + [] == h + [Data(k, piece)];
  }

  // The acts of the last look at byte i.
  lemma LastLook(s: State, act: Act, s': State, marks: Marks, data: seq<Octet>, i: nat, h: seq<Event>)
    requires Shape(s, act, s') && i < |data| && MarksOk(s, marks, i)
    ensures var marks' := NewMarks(act, marks, i);
      && MarksOk(s', marks', i + 1) && Within(marks', i)
      && Story(h + Said(act, marks, data, i) + Pending(marks', data, i + 1))
         == Story(h + Pending(marks, data, i) + (Tell(act) + Own(s', data[i])))
  {
    hide Story, Group, Pending;
    var marks' := NewMarks(act, marks, i);
    if Group(s').None? {
      NothingOpen(s, act, s', marks, data, i, h);
      PendingNone(marks', data, i + 1);
      assert Tell(act) + [] == Tell(act);
      assert h + Said(act, marks, data, i) + [] == h + Said(act, marks, data, i);
    } else {
      DataGoesOn(act, Group(s').value, marks, data, i, h);
      assert Tell(act) + Own(s', data[i]) == Own(s', data[i]);
    }
  }

  lemma DataGoesOn(act: Act, k: DataKind, marks: Marks, data: seq<Octet>, i: nat, h: seq<Event>)
    requires i < |data| && Within(marks, i)
    requires (act == Mark(k) && marks.Keys == {}) || (act.Quiet? && marks.Keys == {k})
    ensures var marks' := NewMarks(act, marks, i);
      && marks'.Keys == {k} && marks'[k] <= i
      && Story(h + Said(act, marks, data, i) + Pending(marks', data, i + 1))
         == Story(h + Pending(marks, data, i) + [Data(k, [data[i]])])
  {
    hide Story, Pending;
    var marks' := NewMarks(act, marks, i);
    PendingOne(k, marks', data, i + 1);
    var m := marks'[k];
    assert data[m..i + 1] == data[m..i] + [data[i]];
    assert h + [] == h && data[i..i + 1] == [data[i]];
    if act.Mark? {
      PendingNone(marks, data, i);
    } else {
      PendingOne(k, marks, data, i);
      StoryJoin(h, k, data[m..i], [data[i]]);
    }
  }

  // h with what is pending tells the same story as h0 with log.
  ghost predicate Told(h: seq<Event>, pending: seq<Event>, h0: seq<Event>, log: seq<Event>) {
    Story(h + pending) == Story(h0 + log)
  }

  lemma ToldNothing(h: seq<Event>, pending: seq<Event>)
    ensures Told(h, pending, h + pending, [])
  {
    assert h + pending + [] == h + pending;
  }

  // More of the same on both sides.
  lemma ToldMore(h: seq<Event>, pending: seq<Event>, h0: seq<Event>, log: seq<Event>, told: seq<Event>, h': seq<Event>, pending': seq<Event>)
    requires Told(h, pending, h0, log) && Story(h' + pending') == Story(h + pending + told)
    ensures Told(h', pending', h0, log + told)
  {
    hide Story;
    StoryCat(h + pending, h0 + log, told);
    assert h0 + (log + told) == h0 + log + told;
  }

  // One step after another.
  lemma ToldThen(h: seq<Event>, pending: seq<Event>, h0: seq<Event>, log: seq<Event>, h': seq<Event>, pending': seq<Event>, more: seq<Event>)
    requires Told(h, pending, h0, log) && Told(h', pending', h + pending, more)
    ensures Told(h', pending', h0, log + more)
  {
    ToldMore(h, pending, h0, log, more, h', pending');
  }

  lemma StartOfBuffer(cfg: Config, p: Parser, data: seq<Octet>, h: seq<Event>)
    requires p.errno == OK
    ensures Feed(cfg, p, data[..0]) == Fed(p, [], 0, More)
    ensures MarksOk(p.state, Entry(p.state), 0) && Told(h, Pending(Entry(p.state), data, 0), h, [])
  {
    hide Group, Story;
    assert Pending(Entry(p.state), data, 0) == [];
  }

  // Feeding one byte more.
  lemma FeedNext(cfg: Config, p: Parser, data: seq<Octet>, i: nat)
    requires p.errno == OK && i < |data| && Feed(cfg, p, data[..i]).end.More?
    ensures var r := Feed(cfg, p, data[..i]);
      var s := OneByte(cfg, r.p, data[i]);
      var t := Feed(cfg, p, data[..i + 1]);
      t == Fed(s.p, r.log + s.log, i + s.used, s.end) && (!t.end.More? ==> Feed(cfg, p, data) == t)
  {
    hide OneByte;
    assert data[..i + 1][..i] == data[..i];
    FeedSplit(cfg, p, data[..i + 1], data[i + 1..]);
    assert data[..i + 1] + data[i + 1..] == data;
  }

  lemma FeedRun(cfg: Config, p: Parser, data: seq<Octet>, i: nat, n: nat)
    requires p.errno == OK && i + n <= |data| && Feed(cfg, p, data[..i]).end.More?
    ensures var r := Feed(cfg, p, data[..i]);
      var s := Feed(cfg, r.p, data[i..i + n]);
      Feed(cfg, p, data[..i + n]) == Fed(s.p, r.log + s.log, i + s.used, s.end)
  {
    hide Feed;
    FeedSplit(cfg, p, data[..i], data[i..i + n]);
    assert data[..i] + data[i..i + n] == data[..i + n];
  }

  // A byte that goes to the switch, and a header that is too long.
  lemma CountedIsReachable(p: Parser)
    requires Reachable(p) && !TooLong(p)
    ensures ReachableAt(Counted(p)) && (Bulk(p.state) ==> Counted(p) == p)
    ensures Counted(p).errno == p.errno && Counted(p).state == p.state
  {
  }

  lemma NothingInBody(s: State, marks: Marks, i: nat)
    requires Bulk(s) && MarksOk(s, marks, i)
    ensures marks.Keys == {}
  {
  }

  // What is left at the end of the buffer.
  lemma Leftover(s: State, marks: Marks, data: seq<Octet>)
    requires data != [] && (MarksOk(s, marks, |data|) || marks.Keys == {Body}) && Within(marks, |data| - 1)
    ensures |marks| <= 1 && Within(marks, |data|)
    ensures var n := |data|;
      Piece(Field, marks, data, n) + Piece(Value, marks, data, n) + Piece(Url, marks, data, n) + Piece(Body, marks, data, n)
      == Pending(marks, data, n)
  {
    hide Group;
    assert forall j: DataKind :: j in marks <==> j in marks.Keys;
    if marks.Keys == {} {
      PendingNone(marks, data, |data|);
    } else {
      var k :| k in marks.Keys;
      assert marks.Keys == {k};
      PendingOne(k, marks, data, |data|);
      assert k == Field || k == Value || k == Url || k == Body;
    }
    assert |marks| == |marks.Keys|;
  }

  lemma ToldFlushed(h: seq<Event>, pending: seq<Event>, h0: seq<Event>, log: seq<Event>)
    requires Told(h, pending, h0, log)
    ensures Told(h + pending, [], h0, log)
  {
    assert h + pending + [] == h + pending;
  }

  lemma ToldBody(h: seq<Event>, b: seq<Octet>, notes: seq<Event>)
    requires b != []
    ensures Told(h + [Data(Body, b)] + notes, [], h, Bytes(Body, b) + notes)
    ensures notes == [] ==> Told(h, [Data(Body, b)], h, Bytes(Body, b) + notes)
  {
    hide Story;
    StoryBytes(h, Body, b);
    StoryCat(h + Bytes(Body, b), h + [Data(Body, b)], notes);
    assert h + (Bytes(Body, b) + notes) == h + Bytes(Body, b) + notes;
    assert h + [Data(Body, b)] + notes + [] == h + [Data(Body, b)] + notes;
    assert h + [Data(Body, b)] + [] == h + [Data(Body, b)];
  }

  lemma ReachableBody(p: Parser)
    requires Bulk(p.state) && Reachable(p)
    ensures BodyOk(p)
  {
  }

  class HttpParser {
    const cfg: Config
    var fields: Parser
    var heard: seq<Event>    // what the application has been told

    // Since the last fresh start: the parser then, what had been told, and all
    // bytes of all buffers.
    ghost var start: Parser
    ghost var before: seq<Event>
    ghost var fed: seq<Octet>

    // Parser and story are those of the bytes fed, one at a time, whatever the
    // buffers were.
    ghost predicate Valid()
      reads this
    {
      fields.errno == OK ==>
        && Reachable(fields) && start.errno == OK
        && Feed(cfg, start, fed) == Fed(fields, Feed(cfg, start, fed).log, |fed|, More)
        && Told(heard, [], before, Feed(cfg, start, fed).log)
    }

    constructor (cfg: Config, kind: Kind)
      ensures Valid() && this.cfg == cfg && fields == start == Init(kind) && heard == before == [] && fed == []
    {
      this.cfg := cfg;
      fields, heard, start, before, fed := Init(kind), [], Init(kind), [], [];
      new;
      assert Feed(cfg, start, []) == Fed(start, [], 0, More);
    }

    // reexecute_byte: the switch on byte i, as often as a state asks for it.
    method TakeByte(data: seq<Octet>, i: nat, marks: Marks) returns (marks': Marks, end: End)
      requires i < |data| && fields.errno == OK && !Bulk(fields.state) && ReachableAt(fields) && MarksOk(fields.state, marks, i)
      modifies `fields, `heard
      ensures var r := Switch(cfg, old(fields), data[i]);
        var h := old(heard) + Pending(marks, data, i);
        && fields == r.p && end == r.end && !end.Aborted?
        && (end.More? ==> MarksOk(fields.state, marks', i + 1) && Within(marks', i) && Told(heard, Pending(marks', data, i + 1), h, r.log))
        && (end.Upgraded? ==> Told(heard, [], h, r.log))
        && (end.Failed? ==> Told(heard, Pending(marks', data, i), h, r.log))
    {
      hide Once, Switch, Story, Pending, Group, ReachableAt, Reachable, Shape, Rank, Shaped, Told;
      marks' := marks;
      ghost var h0, told, all := heard + Pending(marks, data, i), [], Switch(cfg, fields, data[i]);
      ToldNothing(heard, Pending(marks, data, i));
      var o := Once(cfg, fields, data[i]);
      while o.Again?
        invariant fields.errno == OK && !Bulk(fields.state) && ReachableAt(fields)
        invariant o == Once(cfg, fields, data[i]) && MarksOk(fields.state, marks', i)
        invariant all == Switch(cfg, fields, data[i]).(log := told + Switch(cfg, fields, data[i]).log)
        invariant Told(heard, Pending(marks', data, i), h0, told)
        decreases Rank(fields.state)
      {
        SwitchAgain(cfg, fields, data[i]);
        OnceIsSafe(cfg, fields, data[i]);
        NothingOpen(fields.state, o.act, o.p.state, marks', data, i, heard);
        ghost var h, pending := heard, Pending(marks', data, i);
        heard := heard + Said(o.act, marks', data, i);
        marks' := NewMarks(o.act, marks', i);
        fields := o.p;
        PendingNone(marks', data, i);
        assert heard + [] == heard;
        ToldMore(h, pending, h0, told, Tell(o.act), heard, []);
        told := told + Tell(o.act);
        o := Once(cfg, fields, data[i]);
      }
      SwitchLast(cfg, fields, data[i]);
      OnceIsSafe(cfg, fields, data[i]);
      match o {
        case Next(q, act) =>
          LastLook(fields.state, act, q.state, marks', data, i, heard);
          ghost var h, pending := heard, Pending(marks', data, i);
          heard := heard + Said(act, marks', data, i);
          marks' := NewMarks(act, marks', i);
          fields, end := q, More;
          ToldMore(h, pending, h0, told, Tell(act) + Own(q.state, data[i]), heard, Pending(marks', data, i + 1));
        case Exit(q, act) =>
          NothingOpen(fields.state, act, q.state, marks', data, i, heard);
          ghost var h, pending := heard, Pending(marks', data, i);
          heard := heard + Said(act, marks', data, i);
          assert heard + [] == heard;
          fields, end := q, Upgraded;
          ToldMore(h, pending, h0, told, Tell(act), heard, []);
        case Fail(q) =>
          fields, end := q, Failed;
          assert told + [] == told;
      }
    }

    // s_body_identity, s_chunk_data and s_body_identity_eof: as many bytes of
    // body as there are, up to its end.
    method TakeBody(data: seq<Octet>, i: nat) returns (n: nat, marks: Marks)
      requires i < |data| && fields.errno == OK && Bulk(fields.state) && Reachable(fields)
      modifies `fields, `heard
      ensures 0 < n && i + n <= |data| && Within(marks, i + n - 1)
      ensures var r := Feed(cfg, old(fields), data[i..i + n]);
        && r.end.More? && fields == r.p
        && (MarksOk(fields.state, marks, i + n) || (i + n == |data| && marks.Keys == {Body}))
        && Told(heard, Pending(marks, data, i + n), old(heard), r.log)
    {
      hide Story, Pending, Feed, Told, Reachable, NewMessage;
      ReachableBody(fields);
      n := |data| - i;
      if !fields.state.BodyIdentityEof? && fields.contentLength < n { n := fields.contentLength; }
      ghost var b := data[i..i + n];
      FeedBody(cfg, fields, b);
      ToldBody(heard, b, BodyNotes(fields, n));
      fields := AfterBody(fields, n);
      if fields.state.MessageDone? {
        heard := heard + [Data(Body, data[i..i + n])] + [Notify(MessageComplete)];
        fields := fields.(state := NewMessage(cfg, fields));
        marks := map[];
        PendingNone(marks, data, i + n);
      } else {
        marks := map[Body := i];
        PendingOne(Body, marks, data, i + n);
      }
    }

    // http_parser_execute on a buffer that is not empty.
    method Parse(data: seq<Octet>) returns (used: nat, end: End)
      requires data != [] && fields.errno == OK && Reachable(fields)
      modifies `fields, `heard
      ensures var r := Feed(cfg, old(fields), data);
        && fields == r.p && used == r.used && end == r.end && !end.Aborted? && (end.Failed? || Reachable(fields))
        && (end.Failed? ==> exists lost: seq<Event> :: |lost| <= 1 && Told(heard, lost, old(heard), r.log))
        && (!end.Failed? ==> Told(heard, [], old(heard), r.log))
    {
      hide Switch, Story, Pending, Group, ReachableAt, Reachable, Feed, Told, Bulk, OneByte;
      ghost var p0, h0 := fields, heard;
      var marks, i := Entry(fields.state), 0;
      StartOfBuffer(cfg, fields, data, heard);
      while i < |data|
        invariant i <= |data| && fields.errno == OK && Reachable(fields)
        invariant Feed(cfg, p0, data[..i]) == Fed(fields, Feed(cfg, p0, data[..i]).log, i, More)
        invariant MarksOk(fields.state, marks, i) || (i == |data| && marks.Keys == {Body})
        invariant i > 0 ==> Within(marks, i - 1)
        invariant Told(heard, Pending(marks, data, i), h0, Feed(cfg, p0, data[..i]).log)
      {
        ghost var h, pending, log := heard, Pending(marks, data, i), Feed(cfg, p0, data[..i]).log;
        FeedNext(cfg, p0, data, i);
        if TooLong(fields) || !Bulk(fields.state) { OneByteCases(cfg, fields, data[i]); }
        OneByteIsSafe(cfg, fields, data[i]);
        OneByteEnds(cfg, fields, data[i]);
        if TooLong(fields) {
          fields := Counted(fields).(errno := HEADER_OVERFLOW);
          assert log + [] == log;
          return i, Failed;
        }
        CountedIsReachable(fields);
        fields := Counted(fields);
        if Bulk(fields.state) {
          NothingInBody(fields.state, marks, i);
          PendingNone(marks, data, i);
          assert heard + [] == heard;
          var n;
          n, marks := TakeBody(data, i);
          FeedRun(cfg, p0, data, i, n);
          FeedIsSafe(cfg, p0, data[..i + n]);
          ToldThen(h, [], h0, log, heard, Pending(marks, data, i + n), Feed(cfg, p0, data[..i + n]).log[|log|..]);
          i := i + n;
        } else {
          marks, end := TakeByte(data, i, marks);
          ghost var more := Feed(cfg, p0, data[..i + 1]).log[|log|..];
          match end {
            case More => ToldThen(h, pending, h0, log, heard, Pending(marks, data, i + 1), more);
            case Upgraded =>
              ToldThen(h, pending, h0, log, heard, [], more);
              return i + 1, end;
            case Failed =>
              ToldThen(h, pending, h0, log, heard, Pending(marks, data, i), more);
              return i, end;
          }
          i := i + 1;
        }
      }
      assert data[..i] == data;
      Leftover(fields.state, marks, data);
      assert |marks| <= 1;
      ToldFlushed(heard, Pending(marks, data, i), h0, Feed(cfg, p0, data).log);
      heard := heard + (Piece(Field, marks, data, i) + Piece(Value, marks, data, i) + Piece(Url, marks, data, i) + Piece(Body, marks, data, i));
      return i, More;
    }

    // http_parser_execute
    method Execute(data: seq<Octet>) returns (used: nat, upgraded: bool)
      requires Valid()
      modifies this
      ensures Valid()
      ensures old(fields).errno != OK ==> used == 0 && fields == old(fields) && heard == old(heard)
      ensures old(fields).errno == OK && data == [] ==>
        && fields == EofParser(old(fields)) && heard == old(heard) + EofNotes(old(fields)) && used == (if fields.errno == OK then 0 else 1)
      ensures old(fields).errno == OK && data != [] ==>
        var r := Feed(cfg, old(fields), data);
        && fields == r.p && used == r.used && !r.end.Aborted? && (upgraded <==> r.end.Upgraded?) && (fields.errno != OK <==> r.end.Failed?)
        && (r.end.Failed? ==> exists lost: seq<Event> :: |lost| <= 1 && Told(heard, lost, old(heard), r.log))
        && (!r.end.Failed? ==> Told(heard, [], old(heard), r.log))
        && (r.end.More? ==> start == old(start) && before == old(before) && fed == old(fed) + data)
    {
      hide Story, Told, Reachable, Feed;
      upgraded := false;
      if fields.errno != OK { return 0, false; }
      if data == [] {
        heard := heard + EofNotes(fields);
        fields := EofParser(fields);
        Restart();
        return if fields.errno == OK then 0 else 1, false;
      }
      ghost var p, h := fields, heard;
      var end;
      used, end := Parse(data);
      upgraded := end.Upgraded?;
      if end.More? {
        FeedSplit(cfg, start, fed, data);
        assert h + [] == h;
        ToldThen(h, [], before, Feed(cfg, start, fed).log, heard, [], Feed(cfg, p, data).log);
        fed := fed + data;
      } else if end.Upgraded? {
        Restart();
      }
    }

    ghost method Restart()
      requires fields.errno == OK ==> Reachable(fields)
      modifies `start, `before, `fed
      ensures Valid()
    {
      hide Story, Reachable;
      start, before, fed := fields, heard, [];
      if fields.errno == OK { assert Feed(cfg, start, fed) == Fed(fields, [], 0, More); }
      assert heard + [] == heard;
    }
  }

  // An empty buffer says that the connection is closed.
  function EofParser(p: Parser): Parser {
    if p.state.BodyIdentityEof? || p.state.Dead? || p.state.StartReqOrRes? || p.state.StartRes? || p.state.StartReq? then p
    else p.(errno := INVALID_EOF_STATE)
  }

  function EofNotes(p: Parser): seq<Event> {
    if p.state.BodyIdentityEof? then [Notify(MessageComplete)] else []
  }

  // ----- any cutting into buffers -----

  function Concat(buffers: seq<seq<Octet>>): seq<Octet> {
    if buffers == [] then [] else Concat(buffers[..|buffers| - 1]) + buffers[|buffers| - 1]
  }

  // All buffers in turn, until the parser fails or leaves the rest to another
  // protocol: the outcome is that of feeding all the bytes.
  method RunBuffers(parser: HttpParser, buffers: seq<seq<Octet>>) returns (used: nat, upgraded: bool)
    requires parser.Valid() && parser.fields.errno == OK && forall j :: 0 <= j < |buffers| ==> buffers[j] != []
    modifies parser
    ensures parser.Valid()
    ensures var r := Feed(parser.cfg, old(parser.fields), Concat(buffers));
      && parser.fields == r.p && used == r.used && !r.end.Aborted? && (upgraded <==> r.end.Upgraded?)
      && (!r.end.Failed? ==> Told(parser.heard, [], old(parser.heard), r.log))
  {
    hide Story, Told, Feed, HttpParser.Valid;
    used, upgraded := 0, false;
    ghost var p, h, cfg := parser.fields, parser.heard, parser.cfg;
    FeedNothing(cfg, p, h);
    var j := 0;
    while j < |buffers| && parser.fields.errno == OK && !upgraded
      invariant j <= |buffers| && parser.Valid()
      invariant var r := Feed(cfg, p, Concat(buffers[..j]));
        && parser.fields == r.p && used == r.used && !r.end.Aborted? && (upgraded <==> r.end.Upgraded?)
        && (!r.end.Failed? ==> Told(parser.heard, [], h, r.log))
    {
      ghost var h1, log1, done := parser.heard, Feed(cfg, p, Concat(buffers[..j])).log, Concat(buffers[..j]);
      assert h1 + [] == h1;
      assert buffers[..j + 1][..j] == buffers[..j];
      FeedSplit(cfg, p, done, buffers[j]);
      ghost var more := Feed(cfg, parser.fields, buffers[j]).log;
      var n;
      n, upgraded := parser.Execute(buffers[j]);
      if parser.fields.errno == OK { ToldThen(h1, [], h, log1, parser.heard, [], more); }
      used := used + n;
      j := j + 1;
    }
    FeedPrefix(cfg, p, buffers, j);
  }

  lemma FeedNothing(cfg: Config, p: Parser, h: seq<Event>)
    requires p.errno == OK
    ensures Feed(cfg, p, []) == Fed(p, [], 0, More) && Told(h, [], h, [])
  {
  }

  // Nothing happens after the end.
  lemma {:induction false} FeedPrefix(cfg: Config, p: Parser, buffers: seq<seq<Octet>>, j: nat)
    requires p.errno == OK && j <= |buffers|
    requires j == |buffers| || !Feed(cfg, p, Concat(buffers[..j])).end.More?
    ensures Feed(cfg, p, Concat(buffers)) == Feed(cfg, p, Concat(buffers[..j]))
  {
    hide Feed;
    if j == |buffers| {
      assert buffers[..j] == buffers;
    } else {
      var rest := buffers[..|buffers| - 1];
      assert rest[..j] == buffers[..j];
      FeedPrefix(cfg, p, rest, j);
      FeedSplit(cfg, p, Concat(rest), buffers[|buffers| - 1]);
    }
  }

  // Split invariance: two ways of cutting the same bytes into buffers leave
  // the same parser fields, take the same number of bytes and, unless there is
  // an error, tell the same story.
  method CutTwoWays(cfg: Config, kind: Kind, xs: seq<seq<Octet>>, ys: seq<seq<Octet>>)
      returns (x: HttpParser, y: HttpParser, usedX: nat, usedY: nat)
    requires (forall j :: 0 <= j < |xs| ==> xs[j] != []) && (forall j :: 0 <= j < |ys| ==> ys[j] != [])
    requires Concat(xs) == Concat(ys)
    ensures x.fields == y.fields && usedX == usedY
    ensures x.fields.errno == OK ==> Story(x.heard) == Story(y.heard)
  {
    hide Story, Feed, HttpParser.Valid;
    InitIsReachable(kind);
    x := new HttpParser(cfg, kind);
    y := new HttpParser(cfg, kind);
    var u, v;
    usedX, u := RunBuffers(x, xs);
    usedY, v := RunBuffers(y, ys);
    assert x.heard + [] == x.heard && y.heard + [] == y.heard;
  }
}
