/** The live dashboard's state as a consumer of the event stream (cli/src/sessions_watch.rs). */
module Watch {
  import opened Basics
  import opened Strings
  import opened Json
  import opened EventStream

  const ACTIVITY_MAX := 10

  /** One line of the activity feed, without its clock time. */
  datatype Entry = Entry(kind: string, detail: string)

  datatype View = View(sessions: map<string, Json>, activity: seq<Entry>)

  // ---------------------------------------------------------------------------
  // One event
  // ---------------------------------------------------------------------------

  function NonEmpty(parts: seq<string>): seq<string> {
    if parts == [] then []
    else if parts[0] == "" then NonEmpty(parts[1..])
    else [parts[0]] + NonEmpty(parts[1..])
  }

  /** `abbrev_path`: the last two components. */
  function AbbrevPath(path: string): string {
    var parts := NonEmpty(SplitChar(path, '/'));
    if |parts| == 0 then path
    else if |parts| == 1 then parts[0]
    else ['\U{2026}', '/'] + parts[|parts| - 2] + "/" + parts[|parts| - 1]
  }

  function IdOf(data: Json): string {
    OrElse(data.GetStr("id"), "?")
  }

  const ARROW := ['\U{2192}']

  /** What an event adds to the feed. */
  function EntryOf(event: string, data: Json): Option<Entry> {
    var id := IdOf(data);
    if event == "session_created" then Some(Entry(event, OrElse(data.GetStr("name"), id)))
    else if event == "session_status_changed" then
      Some(Entry(event, id + " " + ARROW + " " + OrElse(data.GetStr("status"), "?")))
    else if event == "session_stopped" then Some(Entry(event, id))
    else if event == "session_output" then
      var n := match data.Get("lines") case Some(Arr(items)) => |items| case _ => 0;
      Some(Entry(event, id + " (+" + Decimal(n) + " lines)"))
    else if event == "session_activity" then
      var target := match data.GetStr("path") case Some(p) => AbbrevPath(p) case None => OrElse(data.GetStr("tool"), "?");
      Some(Entry(event, id + " " + OrElse(data.GetStr("action"), "?") + ARROW + target))
    else None
  }

  /** What the feed shows of well-formed events: a new session by its name, a change by the new status, output by the
      number of lines, and activity by the end of the path, or by the tool if there is no path. */
  lemma EntriesShow(data: Json, id: string, text: string)
    requires data.GetStr("id") == Some(id)
    ensures data.GetStr("name") == Some(text) ==> EntryOf("session_created", data) == Some(Entry("session_created", text))
    ensures data.GetStr("status") == Some(text) ==>
      EntryOf("session_status_changed", data) == Some(Entry("session_status_changed", id + " " + ['\U{2192}'] + " " + text))
    ensures EntryOf("session_stopped", data) == Some(Entry("session_stopped", id))
    ensures forall lines :: data.Get("lines") == Some(Arr(lines)) ==>
      EntryOf("session_output", data) == Some(Entry("session_output", id + " (+" + Decimal(|lines|) + " lines)"))
    ensures forall path :: data.GetStr("action") == Some(text) && data.GetStr("path") == Some(path) ==>
      EntryOf("session_activity", data) == Some(Entry("session_activity", id + " " + text + ['\U{2192}'] + AbbrevPath(path)))
    ensures forall tool :: data.GetStr("action") == Some(text) && data.GetStr("path") == None && data.GetStr("tool") == Some(tool) ==>
      EntryOf("session_activity", data) == Some(Entry("session_activity", id + " " + text + ['\U{2192}'] + tool))
  {}

  // ---------------------------------------------------------------------------
  // Paths
  // ---------------------------------------------------------------------------

  /** The components of a path. */
  function Components(path: string): seq<string> {
    NonEmpty(SplitChar(path, '/'))
  }

  lemma {:induction false} NonEmptyConcat(a: seq<string>, b: seq<string>)
    ensures NonEmpty(a + b) == NonEmpty(a) + NonEmpty(b)
  {
    if a == [] {
      assert a + b == b;
    } else {
      assert (a + b)[1..] == a[1..] + b;
      NonEmptyConcat(a[1..], b);
    }
  }

  lemma ComponentsConcat(a: string, b: string)
    ensures Components(a + ['/'] + b) == Components(a) + Components(b)
  {
    SplitCharConcat(a, '/', b);
    NonEmptyConcat(SplitChar(a, '/'), SplitChar(b, '/'));
  }

  lemma OneComponent(a: string)
    requires '/' !in a
    ensures Components(a) == if a == "" then [] else [a]
  {
    SplitCharWhole(a, '/');
    var parts := [a];
    assert parts[1..] == [] && SplitChar(a, '/') == parts;
    assert NonEmpty(parts[1..]) == [];
  }

  /** A path is shown by its last two components, whatever comes before them and however many slashes come after. */
  lemma LastTwoAreShown(prefix: string, a: string, b: string)
    requires a != "" && b != "" && '/' !in a && '/' !in b
    ensures AbbrevPath(prefix + ['/'] + (a + ['/'] + b)) == ['\U{2026}', '/'] + a + "/" + b
    ensures AbbrevPath(a + ['/'] + b) == ['\U{2026}', '/'] + a + "/" + b
  {
    OneComponent(a);
    OneComponent(b);
    ComponentsConcat(a, b);
    ComponentsConcat(prefix, a + ['/'] + b);
    assert Components(a + ['/'] + b) == [a, b];
    ShowsLastTwo(a + ['/'] + b, [], a, b);
    ShowsLastTwo(prefix + ['/'] + (a + ['/'] + b), Components(prefix), a, b);
  }

  lemma ShowsLastTwo(path: string, front: seq<string>, a: string, b: string)
    requires Components(path) == front + [a, b]
    ensures AbbrevPath(path) == ['\U{2026}', '/'] + a + "/" + b
  {
    var parts := Components(path);
    assert |parts| == |front| + 2 && parts[|parts| - 2] == a && parts[|parts| - 1] == b;
  }

  /** A single component is shown as it is, a path without components as the path. */
  lemma ShortPathsAreShown(path: string, a: string)
    requires a != "" && '/' !in a
    ensures AbbrevPath(a) == a
    ensures Components(path) == [] ==> AbbrevPath(path) == path
    ensures Components(path) != [] ==> AbbrevPath(path + ['/'] + "") == AbbrevPath(path)
  {
    OneComponent(a);
    OneComponent("");
    ComponentsConcat(path, "");
  }

  /** `data[key]` on a value: null when there is no such key. */
  function At(data: Json, key: string): Json {
    match data.Get(key) case Some(v) => v case None => Null
  }

  /** `rec[key] = v`: objects and null accept it, anything else panics. */
  function SetKey(rec: Json, key: string, v: Json): Option<Json> {
    match rec
    case Obj(fields) => Some(Obj(fields[key := v]))
    case Null => Some(Obj(map[key := v]))
    case _ => None
  }

  /** The record of a session, if there is one. */
  function RecordOf(sessions: map<string, Json>, id: string): Option<Json> {
    if id in sessions then Some(sessions[id]) else None
  }

  /** A record in which no key can be set. */
  predicate Rigid(rec: Option<Json>) {
    rec.Some? && !rec.value.Obj? && !rec.value.Null?
  }

  function Updated(rec: Json, event: string, data: Json): Option<Json> {
    if event == "session_status_changed" then
      match SetKey(rec, "status", At(data, "status"))
      case None => None
      case Some(r) => if data.Get("last_activity").Some? then SetKey(r, "last_activity", At(data, "last_activity")) else Some(r)
    else SetKey(rec, "status", Str("stopped"))
  }

  /** An update sets the status, and the last activity if the event has one; the record keeps everything else. */
  lemma UpdatesSetOnlyThat(rec: Json, event: string, data: Json, key: string)
    requires event in {"session_status_changed", "session_stopped"} && Updated(rec, event, data).Some?
    ensures var r := Updated(rec, event, data).value;
      && r.Obj?
      && At(r, "status") == (if event == "session_stopped" then Str("stopped") else At(data, "status"))
      && (event == "session_status_changed" && data.Get("last_activity").Some? ==> At(r, "last_activity") == At(data, "last_activity"))
      && (key != "status" && !(key == "last_activity" && event == "session_status_changed" && data.Get("last_activity").Some?) ==>
            r.Get(key) == rec.Get(key))
  {
    if event == "session_status_changed" {
      assert SetKey(rec, "status", At(data, "status")).value.Obj?;
    }
  }

  /** The session directory after an event; none if updating a record panics. */
  function SessionsAfter(sessions: map<string, Json>, event: string, data: Json): Option<map<string, Json>> {
    var id := IdOf(data);
    if event == "session_created" then Some(sessions[id := data])
    else if event in {"session_status_changed", "session_stopped"} && id in sessions then
      match Updated(sessions[id], event, data)
      case None => None
      case Some(r) => Some(sessions[id := r])
    else Some(sessions)
  }

  function Truncate<T>(s: seq<T>, n: nat): seq<T> {
    if |s| <= n then s else s[..n]
  }

  function Pushed(activity: seq<Entry>, entry: Option<Entry>): seq<Entry> {
    if entry == None then activity else Truncate([entry.value] + activity, ACTIVITY_MAX)
  }

  function Apply(v: View, event: string, data: Json): Option<View> {
    match SessionsAfter(v.sessions, event, data)
    case None => None
    case Some(sessions) => Some(View(sessions, Pushed(v.activity, EntryOf(event, data))))
  }

  /** Applying frames in order; data that is not JSON is passed over. */
  function ApplyAll(v: View, frames: seq<Frame>, parse: string -> Option<Json>): Option<View>
    decreases |frames|
  {
    if frames == [] then Some(v)
    else
      match parse(frames[0].data)
      case None => ApplyAll(v, frames[1..], parse)
      case Some(data) =>
        match Apply(v, frames[0].event, data)
        case None => None
        case Some(next) => ApplyAll(next, frames[1..], parse)
  }

  lemma {:induction false} ApplyAllSplit(v: View, a: seq<Frame>, b: seq<Frame>, parse: string -> Option<Json>)
    ensures ApplyAll(v, a + b, parse)
         == match ApplyAll(v, a, parse) case None => None case Some(u) => ApplyAll(u, b, parse)
    decreases |a|
  {
    if a == [] {
      assert a + b == b;
    } else {
      assert (a + b)[1..] == a[1..] + b;
      match parse(a[0].data)
      case None => ApplyAllSplit(v, a[1..], b, parse);
      case Some(data) =>
        if Apply(v, a[0].event, data).Some? {
          ApplyAllSplit(Apply(v, a[0].event, data).value, a[1..], b, parse);
        }
    }
  }

  // ---------------------------------------------------------------------------
  // The state object
  // ---------------------------------------------------------------------------

  class WatchState {
    var sessions: map<string, Json>
    var activity: seq<Entry>

    function Value(): View
      reads this
    {
      View(sessions, activity)
    }

    /** `push_activity`: newest first, at most ten. */
    method PushActivity(entry: Entry)
      modifies this`activity
      ensures activity == Pushed(old(activity), Some(entry))
    {
      activity := [entry] + activity;
      activity := Truncate(activity, ACTIVITY_MAX);
    }

    /** `apply_event`; not `ok` stands for the panic. */
    method ApplyEvent(event: string, data: Json) returns (ok: bool)
      modifies this
      ensures ok <==> !(event in {"session_status_changed", "session_stopped"} && Rigid(RecordOf(old(sessions), IdOf(data))))
      ensures Apply(old(Value()), event, data) == if ok then Some(Value()) else None
    {
      var entry := EntryOf(event, data);
      if entry.Some? {
        PushActivity(entry.value);
      }
      var id := IdOf(data);
      ok := true;
      if event == "session_created" {
        sessions := sessions[id := data];
      } else if event == "session_status_changed" || event == "session_stopped" {
        if id in sessions {
          var rec := Updated(sessions[id], event, data);
          if rec == None {
            return false;
          }
          sessions := sessions[id := rec.value];
        }
      }
    }

    /** The inner loop of `data_loop`: the frames of one chunk are applied. */
    method ApplyFrames(frames: seq<Frame>, parse: string -> Option<Json>) returns (ok: bool)
      modifies this
      ensures ok <==> ApplyAll(old(Value()), frames, parse).Some?
      ensures ok ==> Some(Value()) == ApplyAll(old(Value()), frames, parse)
    {
      ok := true;
      for j := 0 to |frames|
        invariant ApplyAll(Value(), frames[j..], parse) == ApplyAll(old(Value()), frames, parse)
      {
        assert frames[j..][1..] == frames[j + 1..];
        match parse(frames[j].data) {
          case None =>
          case Some(data) =>
            ok := ApplyEvent(frames[j].event, data);
            if !ok {
              return;
            }
        }
      }
      assert frames[|frames|..] == [];
    }

    /** The reading half of `data_loop`: every chunk is parsed and its frames applied. */
    method ReadStream(chunks: seq<string>, parse: string -> Option<Json>) returns (ok: bool)
      modifies this
      ensures ok <==> ApplyAll(old(Value()), FeedAll("", chunks).frames, parse).Some?
      ensures ok ==> Some(Value()) == ApplyAll(old(Value()), FeedAll("", chunks).frames, parse)
    {
      var buffer := new TextBuffer();
      ghost var result := ApplyAll(Value(), FeedAll("", chunks).frames, parse);
      ok := true;
      for i := 0 to |chunks|
        invariant fresh(buffer)
        invariant ApplyAll(Value(), FeedAll(buffer.text, chunks[i..]).frames, parse) == result
      {
        var frames := ReadChunk(buffer, chunks, i);
        ApplyAllSplit(Value(), frames, FeedAll(buffer.text, chunks[i + 1..]).frames, parse);
        ok := ApplyFrames(frames, parse);
        if !ok {
          return;
        }
      }
      assert chunks[|chunks|..] == [];
    }
  }

  /** End to end: for text that a printer of clean frames produced, what the dashboard shows is what applying the
      printed frames gives, however the network cut the text. */
  lemma DashboardSeesWhatWasSent(v: View, sent: seq<Frame>, chunks: seq<string>, parse: string -> Option<Json>)
    requires AllClean(sent) && Concat(chunks) == PrintAll(sent)
    ensures ApplyAll(v, FeedAll("", chunks).frames, parse) == ApplyAll(v, sent, parse)
  {
    StreamingRoundTrip(sent, chunks);
  }

  method ReadChunk(buffer: TextBuffer, chunks: seq<string>, i: nat) returns (frames: seq<Frame>)
    requires i < |chunks|
    modifies buffer
    ensures old(FeedAll(buffer.text, chunks[i..])).frames == frames + FeedAll(buffer.text, chunks[i + 1..]).frames
  {
    FeedStep(buffer.text, chunks[i..]);
    assert chunks[i..][1..] == chunks[i + 1..];
    frames := buffer.Feed(chunks[i]);
  }

  // ---------------------------------------------------------------------------
  // The activity feed
  // ---------------------------------------------------------------------------

  /** Everything the frames add to the feed, newest first. */
  function Recorded(frames: seq<Frame>, parse: string -> Option<Json>): seq<Entry> {
    if frames == [] then []
    else
      var last := frames[|frames| - 1];
      var earlier := Recorded(frames[..|frames| - 1], parse);
      match parse(last.data)
      case None => earlier
      case Some(data) =>
        match EntryOf(last.event, data)
        case None => earlier
        case Some(entry) => [entry] + earlier
  }

  /** The feed shows the ten most recent entries, newest first, and nothing else. */
  lemma {:induction false} ActivityIsRecent(v: View, frames: seq<Frame>, parse: string -> Option<Json>)
    requires |v.activity| <= ACTIVITY_MAX && ApplyAll(v, frames, parse).Some?
    ensures ApplyAll(v, frames, parse).value.activity == Truncate(Recorded(frames, parse) + v.activity, ACTIVITY_MAX)
    decreases |frames|
  {
    if frames == [] {
      assert [] + v.activity == v.activity;
    } else {
      var init, last := frames[..|frames| - 1], frames[|frames| - 1];
      assert frames == init + [last] && [last][1..] == [];
      ApplyAllSplit(v, init, [last], parse);
      ActivityIsRecent(v, init, parse);
      var u := ApplyAll(v, init, parse).value;
      if parse(last.data).Some? && EntryOf(last.event, parse(last.data).value).Some? {
        var e := EntryOf(last.event, parse(last.data).value).value;
        TruncateTwice(e, Recorded(init, parse) + v.activity, ACTIVITY_MAX);
        assert [e] + (Recorded(init, parse) + v.activity) == ([e] + Recorded(init, parse)) + v.activity;
      }
    }
  }

  lemma TruncateTwice<T>(x: T, s: seq<T>, n: nat)
    requires n > 0
    ensures Truncate([x] + Truncate(s, n), n) == Truncate([x] + s, n)
  {}

  // ---------------------------------------------------------------------------
  // The session directory
  // ---------------------------------------------------------------------------

  /** The status a frame gives to session `id`, if the frame is about it. */
  function StatusGiven(f: Frame, id: string, parse: string -> Option<Json>): Option<Json> {
    match parse(f.data)
    case None => None
    case Some(data) =>
      if IdOf(data) != id then None
      else if f.event in {"session_created", "session_status_changed"} then Some(At(data, "status"))
      else if f.event == "session_stopped" then Some(Str("stopped"))
      else None
  }

  predicate Creates(f: Frame, id: string, parse: string -> Option<Json>) {
    f.event == "session_created" && parse(f.data).Some? && IdOf(parse(f.data).value) == id
  }

  /** The status given by the most recent frame about session `id`. */
  function LatestStatus(frames: seq<Frame>, id: string, parse: string -> Option<Json>): Option<Json> {
    if frames == [] then None
    else
      var last := StatusGiven(frames[|frames| - 1], id, parse);
      if last.Some? then last else LatestStatus(frames[..|frames| - 1], id, parse)
  }

  /** Whether `sessions` holds a record of `id` and, if so, with which status. */
  function StatusIn(sessions: map<string, Json>, id: string): Option<Json> {
    if id in sessions then Some(At(sessions[id], "status")) else None
  }

  lemma StatusAfterOne(v: View, f: Frame, id: string, parse: string -> Option<Json>)
    requires ApplyAll(v, [f], parse).Some?
    ensures StatusIn(ApplyAll(v, [f], parse).value.sessions, id)
         == if StatusGiven(f, id, parse).Some? && (id in v.sessions || Creates(f, id, parse)) then StatusGiven(f, id, parse)
            else StatusIn(v.sessions, id)
  {
    assert [f][1..] == [];
    if parse(f.data).Some? {
      var data := parse(f.data).value;
      if id in v.sessions && IdOf(data) == id && f.event in {"session_status_changed", "session_stopped"} {
        UpdatedStatus(v.sessions, f.event, data, id);
      }
    }
  }

  lemma UpdatedStatus(sessions: map<string, Json>, event: string, data: Json, id: string)
    requires id in sessions && event in {"session_status_changed", "session_stopped"} && Updated(sessions[id], event, data).Some?
    ensures At(Updated(sessions[id], event, data).value, "status")
         == if event == "session_stopped" then Str("stopped") else At(data, "status")
  {
    if event == "session_status_changed" {
      var r := SetKey(sessions[id], "status", At(data, "status")).value;
      assert r.Obj? && r.fields["status"] == At(data, "status");
    }
  }

  /** After any stream the directory holds exactly the sessions it held before and those that were created, each
      with the status that the most recent event about it gave. */
  lemma {:induction false} DirectoryIsCurrent(v: View, frames: seq<Frame>, id: string, parse: string -> Option<Json>)
    requires ApplyAll(v, frames, parse).Some?
    ensures var after := ApplyAll(v, frames, parse).value.sessions;
      && (id in after <==> id in v.sessions || exists i :: 0 <= i < |frames| && Creates(frames[i], id, parse))
      && (id in after ==>
            var latest := LatestStatus(frames, id, parse);
            StatusIn(after, id) == if latest.Some? then latest else StatusIn(v.sessions, id))
    decreases |frames|
  {
    if frames != [] {
      var init, last := frames[..|frames| - 1], frames[|frames| - 1];
      assert frames == init + [last];
      ApplyAllSplit(v, init, [last], parse);
      DirectoryIsCurrent(v, init, id, parse);
      StatusAfterOne(ApplyAll(v, init, parse).value, last, id, parse);
      CreatedInPart(init, last, id, parse);
    }
  }

  lemma CreatedInPart(init: seq<Frame>, last: Frame, id: string, parse: string -> Option<Json>)
    ensures (exists i :: 0 <= i < |init + [last]| && Creates((init + [last])[i], id, parse))
       <==> Creates(last, id, parse) || exists i :: 0 <= i < |init| && Creates(init[i], id, parse)
  {
    var whole := init + [last];
    assert whole[|init|] == last;
    assert forall i :: 0 <= i < |init| ==> whole[i] == init[i];
  }

  // ---------------------------------------------------------------------------
  // Panics
  // ---------------------------------------------------------------------------

  /** The session whose record a frame updates, whether there is one or not. */
  function UpdatedId(f: Frame, parse: string -> Option<Json>): Option<string> {
    if f.event in {"session_status_changed", "session_stopped"} && parse(f.data).Some? then Some(IdOf(parse(f.data).value))
    else None
  }

  /** The data of the most recent creation of session `id`, else its record at the beginning. */
  function LatestRecord(sessions: map<string, Json>, frames: seq<Frame>, id: string, parse: string -> Option<Json>): Option<Json> {
    if frames == [] then if id in sessions then Some(sessions[id]) else None
    else
      var last := frames[|frames| - 1];
      if Creates(last, id, parse) then parse(last.data) else LatestRecord(sessions, frames[..|frames| - 1], id, parse)
  }

  /** The `j`-th frame updates a session last created with data that no key can be set in. */
  predicate SpoiledAt(sessions: map<string, Json>, frames: seq<Frame>, j: nat, parse: string -> Option<Json>)
    requires j < |frames|
  {
    var id := UpdatedId(frames[j], parse);
    id.Some? && Rigid(LatestRecord(sessions, frames[..j], id.value, parse))
  }

  lemma OneFrame(v: View, f: Frame, id: string, parse: string -> Option<Json>)
    ensures ApplyAll(v, [f], parse).None? <==> UpdatedId(f, parse).Some? && Rigid(RecordOf(v.sessions, UpdatedId(f, parse).value))
    ensures ApplyAll(v, [f], parse).Some? ==>
      var after := ApplyAll(v, [f], parse).value.sessions;
      Rigid(RecordOf(after, id)) <==> Rigid(if Creates(f, id, parse) then parse(f.data) else RecordOf(v.sessions, id))
  {
    assert [f][1..] == [];
  }

  /** Updates keep objects objects, so a record can be updated exactly if the data it was created with could be. */
  lemma {:induction false} RecordsStayRigid(v: View, frames: seq<Frame>, id: string, parse: string -> Option<Json>)
    requires ApplyAll(v, frames, parse).Some?
    ensures Rigid(RecordOf(ApplyAll(v, frames, parse).value.sessions, id)) <==> Rigid(LatestRecord(v.sessions, frames, id, parse))
    decreases |frames|
  {
    if frames != [] {
      var init, last := frames[..|frames| - 1], frames[|frames| - 1];
      assert frames == init + [last];
      ApplyAllSplit(v, init, [last], parse);
      RecordsStayRigid(v, init, id, parse);
      OneFrame(ApplyAll(v, init, parse).value, last, id, parse);
    }
  }

  /** A stream makes the dashboard panic exactly if one of its frames updates a session that was last created with, or
      held at the beginning as, data that is neither an object nor null. */
  lemma {:induction false} PanicsIff(v: View, frames: seq<Frame>, parse: string -> Option<Json>)
    ensures ApplyAll(v, frames, parse).None? <==> exists j :: 0 <= j < |frames| && SpoiledAt(v.sessions, frames, j, parse)
    decreases |frames|
  {
    if frames != [] {
      var init, last := frames[..|frames| - 1], frames[|frames| - 1];
      var n := |init|;
      assert frames == init + [last];
      ApplyAllSplit(v, init, [last], parse);
      PanicsIff(v, init, parse);
      forall j | 0 <= j < n
        ensures SpoiledAt(v.sessions, frames, j, parse) <==> SpoiledAt(v.sessions, init, j, parse)
      {
        assert frames[..j] == init[..j];
      }
      assert frames[n] == last && frames[..n] == init;
      if ApplyAll(v, init, parse).Some? {
        var id := UpdatedId(last, parse);
        OneFrame(ApplyAll(v, init, parse).value, last, "", parse);
        if id.Some? {
          RecordsStayRigid(v, init, id.value, parse);
        }
        assert ApplyAll(v, frames, parse).None? <==> SpoiledAt(v.sessions, frames, n, parse);
      }
    }
  }

  /** Creating a session with a bare number or text and then stopping it is enough. */
  lemma StoppingANumberPanics(v: View, text: string, parse: string -> Option<Json>)
    requires parse(text).Some? && (parse(text).value.Num? || parse(text).value.Str?)
    ensures ApplyAll(v, [Frame("session_created", text), Frame("session_stopped", text)], parse).None?
  {
    var frames := [Frame("session_created", text), Frame("session_stopped", text)];
    assert frames[..1][..0] == [] && frames[..1] == [frames[0]];
    assert SpoiledAt(v.sessions, frames, 1, parse);
    PanicsIff(v, frames, parse);
  }

  /** Updating records panics only after a session was created with data that is neither an object nor null. */
  lemma {:induction false} ObjectsNeverPanic(v: View, frames: seq<Frame>, parse: string -> Option<Json>)
    requires forall id :: id in v.sessions ==> v.sessions[id].Obj? || v.sessions[id].Null?
    requires forall f :: f in frames && f.event == "session_created" && parse(f.data).Some? ==>
      parse(f.data).value.Obj? || parse(f.data).value.Null?
    ensures ApplyAll(v, frames, parse).Some?
    decreases |frames|
  {
    if frames != [] {
      match parse(frames[0].data)
      case None => ObjectsNeverPanic(v, frames[1..], parse);
      case Some(data) =>
        assert frames[0] in frames;
        ObjectsNeverPanic(Apply(v, frames[0].event, data).value, frames[1..], parse);
    }
  }
}
