/** What any reader of event streams makes of the frames on the wire: the interpretation of section 9.2.6 of the WHATWG
    HTML Standard, over the lines of a stream. */
module SseStandard {
  import Decimal
  import opened Optional
  import opened SseWire
  import Sequences

  /** A dispatched message: its type, its data, and the last event id so far. */
  datatype Message = Message(event: string, data: string, lastId: string)

  /** The field a line sets, up to its first colon, and its value, without one leading space. */
  function FieldOf(line: string): string {
    if line == "" || line[0] == ':' then "" else [line[0]] + FieldOf(line[1..])
  }

  function ValueOf(line: string): string {
    var n := |FieldOf(line)|;
    FieldBounds(line);
    if n >= |line| then ""
    else if n + 1 < |line| && line[n + 1] == ' ' then line[n + 2..] else line[n + 1..]
  }

  lemma {:induction false} FieldBounds(line: string)
    ensures |FieldOf(line)| <= |line|
  {
    if line != "" && line[0] != ':' {
      FieldBounds(line[1..]);
    }
  }

  /** Lines set the type, add to the data and set the id; a blank line dispatches, if there is data. */
  function Interpret(lines: seq<string>, event: string, data: Option<string>, lastId: string): seq<Message>
    decreases |lines|
  {
    if lines == [] then []
    else
      var line, rest := lines[0], lines[1..];
      if line == "" then
        (if data.Some? then [Message(if event == "" then "message" else event, data.value, lastId)] else [])
        + Interpret(rest, "", None, lastId)
      else
        match FieldOf(line)
        case "event" => Interpret(rest, ValueOf(line), data, lastId)
        case "data" =>
          Interpret(rest, event, Some(if data.Some? then data.value + "\n" + ValueOf(line) else ValueOf(line)), lastId)
        case "id" => Interpret(rest, event, data, ValueOf(line))
        case _ => Interpret(rest, event, data, lastId)
  }

  /** The messages a stream of frames stands for. */
  function Messages(fs: seq<Frame>, lastId: string): seq<Message> {
    if fs == [] then []
    else
      match fs[0]
      case Comment(_) => Messages(fs[1..], lastId)
      case Data(None, name, payload) => [Message(TypeOf(name), payload, lastId)] + Messages(fs[1..], lastId)
      case Data(Some(id), name, payload) =>
        [Message(TypeOf(name), payload, Decimal.Render(id))] + Messages(fs[1..], Decimal.Render(id))
  }

  function TypeOf(name: string): string { if name == "" then "message" else name }

  lemma {:induction false} FieldIs(field: string, value: string)
    requires ':' !in field
    ensures FieldOf(field + ": " + value) == field && ValueOf(field + ": " + value) == value
  {
    FieldIsPrefix(field, " " + value);
    assert field + ": " + value == field + ":" + (" " + value);
    var line := field + ": " + value;
    assert line[|field| + 1] == ' ' && line[|field| + 2..] == value;
  }

  lemma {:induction false} FieldIsPrefix(field: string, rest: string)
    requires ':' !in field
    ensures FieldOf(field + ":" + rest) == field
  {
    var line := field + ":" + rest;
    if field == "" {
      assert line[0] == ':';
    } else {
      assert line[0] == field[0] && line[1..] == field[1..] + ":" + rest;
      FieldIsPrefix(field[1..], rest);
    }
  }

  lemma CommentHasNoField(text: string)
    ensures FieldOf(": " + text) == "" && ": " + text != ""
  {
    assert (": " + text)[0] == ':';
  }

  lemma FieldLine(field: string, value: string, rest: seq<string>, event: string, data: Option<string>, lastId: string)
    requires field in {"event", "data", "id"} && (field == "data" ==> data.None?)
    ensures Interpret([field + ": " + value] + rest, event, data, lastId)
         == if field == "event" then Interpret(rest, value, data, lastId)
            else if field == "data" then Interpret(rest, event, Some(value), lastId)
            else Interpret(rest, event, data, value)
  {
    var line := field + ": " + value;
    FieldIs(field, value);
    assert ([line] + rest)[0] == line && ([line] + rest)[1..] == rest && line != "";
  }

  lemma BlankLine(rest: seq<string>, event: string, payload: string, lastId: string)
    ensures Interpret([""] + rest, event, Some(payload), lastId)
         == [Message(if event == "" then "message" else event, payload, lastId)] + Interpret(rest, "", None, lastId)
  {
    assert ([""] + rest)[1..] == rest;
  }

  lemma CommentFrame(text: string, rest: seq<string>, lastId: string)
    ensures Interpret([": " + text, ""] + rest, "", None, lastId) == Interpret(rest, "", None, lastId)
  {
    CommentHasNoField(text);
    var all := [": " + text, ""] + rest;
    assert all[1..] == [""] + rest && ([""] + rest)[1..] == rest;
    Sequences.Nothing(Interpret(rest, "", None, lastId));
  }

  lemma DataFrame(name: string, payload: string, rest: seq<string>, lastId: string)
    ensures Interpret(["event: " + name, "data: " + payload, ""] + rest, "", None, lastId)
         == [Message(TypeOf(name), payload, lastId)] + Interpret(rest, "", None, lastId)
  {
    var second, third := ["data: " + payload] + ([""] + rest), [""] + rest;
    assert "event" + ": " + name == "event: " + name && "data" + ": " + payload == "data: " + payload;
    assert ["event: " + name, "data: " + payload, ""] + rest == ["event: " + name] + second;
    FieldLine("event", name, second, "", None, lastId);
    FieldLine("data", payload, third, name, None, lastId);
    BlankLine(rest, name, payload, lastId);
  }

  lemma IdFrame(id: string, name: string, payload: string, rest: seq<string>, lastId: string)
    ensures Interpret(["id: " + id, "event: " + name, "data: " + payload, ""] + rest, "", None, lastId)
         == [Message(TypeOf(name), payload, id)] + Interpret(rest, "", None, id)
  {
    var more := ["event: " + name, "data: " + payload, ""] + rest;
    assert "id" + ": " + id == "id: " + id;
    assert ["id: " + id, "event: " + name, "data: " + payload, ""] + rest == ["id: " + id] + more;
    FieldLine("id", id, more, "", None, lastId);
    DataFrame(name, payload, rest, id);
  }

  lemma {:induction false} LinesMean(fs: seq<Frame>, lastId: string)
    ensures Interpret(AllLines(fs), "", None, lastId) == Messages(fs, lastId)
    decreases |fs|
  {
    if fs != [] {
      var rest := AllLines(fs[1..]);
      match fs[0]
      case Comment(text) =>
        CommentFrame(text, rest, lastId);
        LinesMean(fs[1..], lastId);
      case Data(None, name, payload) =>
        DataFrame(name, payload, rest, lastId);
        LinesMean(fs[1..], lastId);
      case Data(Some(id), name, payload) =>
        IdFrame(Decimal.Render(id), name, payload, rest, lastId);
        LinesMean(fs[1..], Decimal.Render(id));
    }
  }

  /** A standard reader makes of a stream exactly its frames: one message each, with its name as type (or `message`),
      its payload as data, and its id, or the last one given; comments are no messages. */
  lemma StreamMeansItsFrames(fs: seq<Frame>)
    requires forall i :: 0 <= i < |fs| ==> WellFormed(fs[i])
    ensures Interpret(Split(Text(AllLines(fs))).0, "", None, "") == Messages(fs, "")
    ensures Split(Text(AllLines(fs))).1 == ""
  {
    LinesAreSingle(fs);
    SplitText(AllLines(fs));
    LinesMean(fs, "");
  }

  /** The client takes a printed id, with or without a plus sign, exactly when it fits in 64 bits. */
  lemma IdIsTaken(sign: string, n: nat)
    requires sign == "" || sign == "+"
    ensures ParseU64(sign + Decimal.Render(n)) == if n < 0x1_0000_0000_0000_0000 then Some(n) else None
  {
    var digits := Decimal.Render(n);
    Decimal.ValueOfRender(n);
    assert digits[0] in digits;
    if sign == "" {
      assert sign + digits == digits;
    } else {
      assert (sign + digits)[0] == '+' && (sign + digits)[1..] == digits;
    }
  }

  /** What is empty, only a sign, or holds anything but digits behind its first character is no id. */
  lemma OtherIsNoId(s: string)
    requires s == "" || s == "+" || s[0] == '-' || exists i :: 1 <= i < |s| && !('0' <= s[i] <= '9')
    ensures ParseU64(s) == None
  {
    if i :| 1 <= i < |s| && !('0' <= s[i] <= '9') {
      assert s[i] in s && s[1..][i - 1] == s[i] && s[i] in s[1..] && !Decimal.IsDigit(s[i]);
    } else if s != "" && s[0] == '-' {
      assert s[0] in s && !Decimal.IsDigit(s[0]);
    } else if s == "+" {
      assert s[1..] == "";
    }
  }
}
