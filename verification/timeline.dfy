/**
 Reading a phone Timeline export (internal/timeline/parse.go): a token stream is consumed left to
 right, and what comes out is what the document means as a tree.
 */
module Timeline {
  import opened Domain
  import opened Seqs

  // ---- Documents and their tokens ----

  datatype Json = Scalar | Text(s: string) | Array(items: Items) | Object(members: Members)

  datatype Items = NoItem | Item(value: Json, rest: Items)

  datatype Members = NoMember | Member(key: string, value: Json, rest: Members)

  datatype Token = OpenObject | CloseObject | OpenArray | CloseArray | Str(s: string) | Literal

  predicate Opens(t: Token) { t == OpenObject || t == OpenArray }

  predicate Closes(t: Token) { t == CloseObject || t == CloseArray }

  function Tokens(v: Json): (ts: seq<Token>)
    ensures ts != [] && !Closes(ts[0])
  {
    match v
    case Scalar => [Literal]
    case Text(s) => [Str(s)]
    case Array(items) => [OpenArray] + ItemTokens(items) + [CloseArray]
    case Object(members) => [OpenObject] + MemberTokens(members) + [CloseObject]
  }

  function ItemTokens(items: Items): seq<Token> {
    match items
    case NoItem => []
    case Item(v, rest) => Tokens(v) + ItemTokens(rest)
  }

  function MemberTokens(members: Members): seq<Token> {
    match members
    case NoMember => []
    case Member(key, v, rest) => [Str(key)] + Tokens(v) + MemberTokens(rest)
  }

  function Joined(a: Members, b: Members): Members {
    match a
    case NoMember => b
    case Member(key, v, rest) => Member(key, v, Joined(rest, b))
  }

  // ---- Skipping one value ----

  /** Reads until the given nesting depth is closed; None when the tokens run out first. */
  function Unnest(ts: seq<Token>, depth: nat): (rest: Option<seq<Token>>)
    ensures rest.Some? ==> |rest.value| <= |ts|
  {
    if depth == 0 then Some(ts)
    else if ts == [] then None
    else Unnest(ts[1..], if Opens(ts[0]) then depth + 1 else if Closes(ts[0]) then depth - 1 else depth)
  }

  /** What is left after one value. */
  function SkipValue(ts: seq<Token>): (rest: Option<seq<Token>>)
    ensures rest.Some? ==> |rest.value| < |ts|
  {
    if ts == [] then None
    else if Opens(ts[0]) then Unnest(ts[1..], 1)
    else Some(ts[1..])
  }

  lemma Uncons(t: Token, ts: seq<Token>)
    ensures ([t] + ts)[0] == t && ([t] + ts)[1..] == ts
  {
  }

  lemma UnnestOne(t: Token, ts: seq<Token>, depth: nat)
    requires depth >= 1
    ensures Unnest([t] + ts, depth)
         == Unnest(ts, if Opens(t) then depth + 1 else if Closes(t) then depth - 1 else depth)
  {
    Uncons(t, ts);
  }

  /** A balanced body between brackets leaves the depth outside it as it was. */
  lemma UnnestWrapped(first: Token, body: seq<Token>, last: Token, rest: seq<Token>, depth: nat)
    requires Opens(first) && Closes(last) && depth >= 1
    requires Unnest(body + ([last] + rest), depth + 1) == Unnest([last] + rest, depth + 1)
    ensures Unnest([first] + body + [last] + rest, depth) == Unnest(rest, depth)
  {
    hide Unnest;
    assert [first] + body + [last] + rest == [first] + (body + ([last] + rest));
    UnnestOne(first, body + ([last] + rest), depth);
    UnnestOne(last, rest, depth + 1);
  }

  /** A whole value leaves any open depth as it was. */
  lemma {:induction false} UnnestValue(v: Json, rest: seq<Token>, depth: nat)
    requires depth >= 1
    ensures Unnest(Tokens(v) + rest, depth) == Unnest(rest, depth)
  {
    match v
    case Scalar => UnnestOne(Literal, rest, depth);
    case Text(s) => UnnestOne(Str(s), rest, depth);
    case Array(items) =>
      UnnestItems(items, [CloseArray] + rest, depth + 1);
      UnnestWrapped(OpenArray, ItemTokens(items), CloseArray, rest, depth);
    case Object(members) =>
      UnnestMembers(members, [CloseObject] + rest, depth + 1);
      UnnestWrapped(OpenObject, MemberTokens(members), CloseObject, rest, depth);
  }

  lemma {:induction false} UnnestItems(items: Items, rest: seq<Token>, depth: nat)
    requires depth >= 1
    ensures Unnest(ItemTokens(items) + rest, depth) == Unnest(rest, depth)
  {
    match items
    case NoItem => assert ItemTokens(items) + rest == rest;
    case Item(v, more) =>
      assert ItemTokens(items) + rest == Tokens(v) + (ItemTokens(more) + rest);
      UnnestValue(v, ItemTokens(more) + rest, depth);
      UnnestItems(more, rest, depth);
  }

  lemma {:induction false} UnnestMembers(members: Members, rest: seq<Token>, depth: nat)
    requires depth >= 1
    ensures Unnest(MemberTokens(members) + rest, depth) == Unnest(rest, depth)
  {
    match members
    case NoMember => assert MemberTokens(members) + rest == rest;
    case Member(key, v, more) =>
      var inner := Tokens(v) + (MemberTokens(more) + rest);
      assert MemberTokens(members) + rest == [Str(key)] + inner;
      UnnestOne(Str(key), inner, depth);
      UnnestValue(v, MemberTokens(more) + rest, depth);
      UnnestMembers(more, rest, depth);
  }

  lemma SkipOne(t: Token, ts: seq<Token>)
    ensures SkipValue([t] + ts) == if Opens(t) then Unnest(ts, 1) else Some(ts)
  {
    hide Unnest;
    Uncons(t, ts);
  }

  lemma UnnestedAlready(rest: seq<Token>)
    ensures Unnest(rest, 0) == Some(rest)
  {
  }

  lemma SkipWrapped(first: Token, body: seq<Token>, last: Token, rest: seq<Token>)
    requires Opens(first) && Closes(last)
    requires Unnest(body + ([last] + rest), 1) == Unnest([last] + rest, 1)
    ensures SkipValue([first] + body + [last] + rest) == Some(rest)
  {
    hide Unnest, SkipValue;
    UnnestOne(last, rest, 1);
    UnnestedAlready(rest);
    assert [first] + body + [last] + rest == [first] + (body + ([last] + rest));
    SkipOne(first, body + ([last] + rest));
  }

  /** Skipping consumes exactly the tokens of one value, at any nesting depth. */
  lemma SkipExact(v: Json, rest: seq<Token>)
    ensures SkipValue(Tokens(v) + rest) == Some(rest)
  {
    match v
    case Scalar => SkipOne(Literal, rest);
    case Text(s) => SkipOne(Str(s), rest);
    case Array(items) =>
      UnnestItems(items, [CloseArray] + rest, 1);
      SkipWrapped(OpenArray, ItemTokens(items), CloseArray, rest);
    case Object(members) =>
      UnnestMembers(members, [CloseObject] + rest, 1);
      SkipWrapped(OpenObject, MemberTokens(members), CloseObject, rest);
  }

  lemma {:induction false} UnnestExtends(ts: seq<Token>, more: seq<Token>, depth: nat)
    requires Unnest(ts, depth).Some?
    ensures Unnest(ts + more, depth) == Some(Unnest(ts, depth).value + more)
  {
    if depth > 0 {
      assert (ts + more)[0] == ts[0] && (ts + more)[1..] == ts[1..] + more;
      UnnestExtends(ts[1..], more, if Opens(ts[0]) then depth + 1 else if Closes(ts[0]) then depth - 1 else depth);
    }
  }

  /** More input behind a value does not change where it ends. */
  lemma SkipExtends(ts: seq<Token>, more: seq<Token>)
    requires SkipValue(ts).Some?
    ensures SkipValue(ts + more) == Some(SkipValue(ts).value + more)
  {
    assert (ts + more)[0] == ts[0] && (ts + more)[1..] == ts[1..] + more;
    if Opens(ts[0]) {
      UnnestExtends(ts[1..], more, 1);
    }
  }

  /** A value cut short is never mistaken for a whole one. */
  lemma SkipNeedsAll(v: Json, n: nat)
    requires n < |Tokens(v)|
    ensures SkipValue(Tokens(v)[..n]) == None
  {
    hide SkipValue, Tokens;
    var ts := Tokens(v);
    if SkipValue(ts[..n]).Some? {
      SkipExtends(ts[..n], ts[n..]);
      assert ts[..n] + ts[n..] == ts && ts + [] == ts;
      SkipExact(v, []);
    }
  }

  // ---- What one array entry adds ----

  datatype VisitPart = VisitPart(loc: Option<LatLng>, semanticType: string)

  datatype ActivityPart = ActivityPart(from: Option<LatLng>, to: Option<LatLng>, distanceM: real, mode: string)

  datatype PathPart = PathPart(time: string, loc: Option<LatLng>)

  datatype RawSegment = RawSegment(startTime: string, endTime: string, visit: Option<VisitPart>,
                                   activity: Option<ActivityPart>, path: Option<seq<PathPart>>)

  datatype SignalPart = SignalPart(timestamp: string, loc: Option<LatLng>, accuracyM: real, source: string)

  /** How the tokens of one entry decode; None is a value of the wrong shape. */
  datatype Readers = Readers(segment: seq<Token> -> Option<RawSegment>,
                             signal: seq<Token> -> Option<Option<SignalPart>>,
                             time: string -> Option<Time>)

  datatype Stats = Stats(visits: nat, activities: nat, points: nat, raws: nat, skipped: nat)

  /** Everything collected so far. */
  datatype Haul = Haul(obs: Observations, st: Stats)

  const NOTHING := Haul(Observations([], [], [], []), Stats(0, 0, 0, 0, 0))

  function Skipped(h: Haul): Haul { h.(st := h.st.(skipped := h.st.skipped + 1)) }

  function AddVisit(h: Haul, v: Visit): Haul {
    Haul(h.obs.(visits := h.obs.visits + [v]), h.st.(visits := h.st.visits + 1))
  }

  function AddActivity(h: Haul, a: Activity): Haul {
    Haul(h.obs.(activities := h.obs.activities + [a]), h.st.(activities := h.st.activities + 1))
  }

  function AddPoint(h: Haul, part: PathPart, R: Readers): Haul {
    if part.time == "" then Skipped(h)
    else
      match R.time(part.time)
      case None => Skipped(h)
      case Some(t) => Haul(h.obs.(points := h.obs.points + [PathPoint(t, part.loc)]), h.st.(points := h.st.points + 1))
  }

  function AddPoints(h: Haul, parts: seq<PathPart>, R: Readers): Haul {
    if parts == [] then h else AddPoint(AddPoints(h, Front(parts), R), Last(parts), R)
  }

  /** A segment is a visit, else an activity, else a path; other kinds are ignored. */
  function AddSegment(h: Haul, seg: RawSegment, R: Readers): Haul {
    var start, end := R.time(seg.startTime), R.time(seg.endTime);
    if seg.visit.Some? then
      if start.None? || end.None? then Skipped(h)
      else AddVisit(h, Visit(start.value, end.value, seg.visit.value.loc, seg.visit.value.semanticType))
    else if seg.activity.Some? then
      if start.None? || end.None? then Skipped(h)
      else
        var a := seg.activity.value;
        AddActivity(h, Activity(start.value, end.value, a.from, a.to, a.distanceM, a.mode))
    else if seg.path.Some? then AddPoints(h, seg.path.value, R)
    else h
  }

  function AddSignal(h: Haul, signal: Option<SignalPart>, R: Readers): Haul {
    match signal
    case None => h
    case Some(p) =>
      match R.time(p.timestamp)
      case None => Skipped(h)
      case Some(t) =>
        Haul(h.obs.(raws := h.obs.raws + [RawPosition(t, p.loc, p.accuracyM, p.source)]), h.st.(raws := h.st.raws + 1))
  }

  datatype Section = Segments | Signals

  /** An entry that does not decode is counted and skipped. */
  function AddEntry(h: Haul, section: Section, ts: seq<Token>, R: Readers): Haul {
    match section
    case Segments => (match R.segment(ts) case None => Skipped(h) case Some(seg) => AddSegment(h, seg, R))
    case Signals => (match R.signal(ts) case None => Skipped(h) case Some(signal) => AddSignal(h, signal, R))
  }

  // ---- The streaming reader ----

  datatype Error = Truncated | Malformed | Unrecognised

  datatype Result<T> = Ok(value: T) | Err(error: Error)

  /** The entries of an array up to and including its closing bracket. */
  function ReadEntries(ts: seq<Token>, h: Haul, section: Section, ending: Error,
                       R: Readers): (r: Result<(seq<Token>, Haul)>)
    ensures r.Ok? ==> |r.value.0| < |ts|
    decreases |ts|
  {
    if ts == [] then Err(ending)
    else if Closes(ts[0]) then if ts[0] == CloseArray then Ok((ts[1..], h)) else Err(Malformed)
    else
      match SkipValue(ts)
      case None => Err(ending)
      case Some(rest) => ReadEntries(rest, AddEntry(h, section, ts[..|ts| - |rest|], R), section, ending, R)
  }

  function ReadArray(ts: seq<Token>, h: Haul, section: Section, ending: Error,
                     R: Readers): (r: Result<(seq<Token>, Haul)>)
    ensures r.Ok? ==> |r.value.0| < |ts|
  {
    if ts == [] then Err(ending)
    else if ts[0] != OpenArray then Err(Malformed)
    else ReadEntries(ts[1..], h, section, ending, R)
  }

  const SEGMENTS_KEY := "semanticSegments"
  const SIGNALS_KEY := "rawSignals"

  /** What follows one top-level key. */
  function ReadMember(key: string, ts: seq<Token>, h: Haul, ending: Error, R: Readers): (r: Result<(seq<Token>, Haul)>)
    ensures r.Ok? ==> |r.value.0| < |ts|
  {
    if key == SEGMENTS_KEY then ReadArray(ts, h, Segments, ending, R)
    else if key == SIGNALS_KEY then ReadArray(ts, h, Signals, ending, R)
    else
      match SkipValue(ts)
      case None => Err(ending)
      case Some(rest) => Ok((rest, h))
  }

  function ReadMembers(ts: seq<Token>, h: Haul, found: bool, ending: Error,
                       R: Readers): (r: Result<(seq<Token>, Haul, bool)>)
    decreases |ts|
  {
    if ts == [] then Err(ending)
    else if Closes(ts[0]) then if ts[0] == CloseObject then Ok((ts[1..], h, found)) else Err(Malformed)
    else if !ts[0].Str? then Err(Malformed)
    else
      match ReadMember(ts[0].s, ts[1..], h, ending, R)
      case Err(e) => Err(e)
      case Ok((rest, more)) => ReadMembers(rest, more, found || ts[0].s == SEGMENTS_KEY, ending, R)
  }

  /** A whole export; `ending` is what running out of tokens means: end of file, or a syntax error there. */
  function ReadExport(ts: seq<Token>, ending: Error, R: Readers): Result<Haul> {
    if ts == [] then Err(ending)
    else if ts[0] != OpenObject then Err(Malformed)
    else
      match ReadMembers(ts[1..], NOTHING, false, ending, R)
      case Err(e) => Err(e)
      case Ok((_, h, found)) => if found then Ok(h) else Err(Unrecognised)
  }

  // ---- The document as a tree ----

  function ItemsMean(items: Items, h: Haul, section: Section, R: Readers): Haul {
    match items
    case NoItem => h
    case Item(v, rest) => ItemsMean(rest, AddEntry(h, section, Tokens(v), R), section, R)
  }

  function MemberMeans(key: string, v: Json, h: Haul, R: Readers): Result<Haul> {
    if key == SEGMENTS_KEY then if v.Array? then Ok(ItemsMean(v.items, h, Segments, R)) else Err(Malformed)
    else if key == SIGNALS_KEY then if v.Array? then Ok(ItemsMean(v.items, h, Signals, R)) else Err(Malformed)
    else Ok(h)
  }

  function MembersMean(members: Members, h: Haul, found: bool, R: Readers): Result<(Haul, bool)> {
    match members
    case NoMember => Ok((h, found))
    case Member(key, v, rest) =>
      match MemberMeans(key, v, h, R)
      case Err(e) => Err(e)
      case Ok(more) => MembersMean(rest, more, found || key == SEGMENTS_KEY, R)
  }

  /** What an export means, without tokens. */
  function Meaning(doc: Members, R: Readers): Result<Haul> {
    match MembersMean(doc, NOTHING, false, R)
    case Err(e) => Err(e)
    case Ok((h, found)) => if found then Ok(h) else Err(Unrecognised)
  }

  // ---- What a document holds, entry by entry ----

  /** The entries of the two known arrays, wherever and however often these occur, in document order. */
  function EntriesOf(members: Members): seq<(Section, Json)> {
    match members
    case NoMember => []
    case Member(key, v, rest) =>
      (if !v.Array? then []
       else if key == SEGMENTS_KEY then Tagged(Segments, v.items)
       else if key == SIGNALS_KEY then Tagged(Signals, v.items)
       else [])
      + EntriesOf(rest)
  }

  function Tagged(section: Section, items: Items): seq<(Section, Json)> {
    match items
    case NoItem => []
    case Item(v, rest) => [(section, v)] + Tagged(section, rest)
  }

  /** What one entry contributes. */
  datatype Yield = Yield(obs: Observations, skipped: nat)

  const NO_OBS := Observations([], [], [], [])

  function YieldOf(entry: (Section, Json), R: Readers): Yield {
    match entry.0
    case Segments =>
      (match R.segment(Tokens(entry.1))
       case None => Yield(NO_OBS, 1)
       case Some(seg) => SegmentYield(seg, R))
    case Signals =>
      (match R.signal(Tokens(entry.1))
       case None => Yield(NO_OBS, 1)
       case Some(None) => Yield(NO_OBS, 0)
       case Some(Some(fix)) =>
         var t := R.time(fix.timestamp);
         if t.None? then Yield(NO_OBS, 1)
         else Yield(NO_OBS.(raws := [RawPosition(t.value, fix.loc, fix.accuracyM, fix.source)]), 0))
  }

  /** A visit or an activity from its start to its end; or the timed points of a path. */
  function SegmentYield(seg: RawSegment, R: Readers): Yield {
    var timed := R.time(seg.startTime).Some? && R.time(seg.endTime).Some?;
    if seg.visit.Some? && timed then
      var start, end := R.time(seg.startTime).value, R.time(seg.endTime).value;
      Yield(NO_OBS.(visits := [Visit(start, end, seg.visit.value.loc, seg.visit.value.semanticType)]), 0)
    else if seg.visit.None? && seg.activity.Some? && timed then
      var start, end, a := R.time(seg.startTime).value, R.time(seg.endTime).value, seg.activity.value;
      Yield(NO_OBS.(activities := [Activity(start, end, a.from, a.to, a.distanceM, a.mode)]), 0)
    else if seg.visit.Some? || seg.activity.Some? then Yield(NO_OBS, 1)
    else if seg.path.Some? then
      var timedParts := Filter(seg.path.value, HasTime(R));
      Yield(NO_OBS.(points := Map(timedParts, PointOf(R))), |seg.path.value| - |timedParts|)
    else Yield(NO_OBS, 0)
  }

  function HasTime(R: Readers): PathPart -> bool { (part: PathPart) => part.time != "" && R.time(part.time).Some? }

  function PointOf(R: Readers): PathPart -> PathPoint {
    (part: PathPart) =>
      PathPoint(if R.time(part.time).Some? then R.time(part.time).value else Time(0, 0), part.loc)
  }

  function Both(y: Yield, z: Yield): Yield {
    Yield(Observations(y.obs.visits + z.obs.visits, y.obs.activities + z.obs.activities,
                       y.obs.points + z.obs.points, y.obs.raws + z.obs.raws), y.skipped + z.skipped)
  }

  function Together(entries: seq<(Section, Json)>, R: Readers): Yield {
    if entries == [] then Yield(NO_OBS, 0) else Both(YieldOf(entries[0], R), Together(entries[1..], R))
  }

  /** A haul grows by what is yielded. */
  ghost predicate GrowsBy(h: Haul, k: Haul, y: Yield) {
    Both(Yield(h.obs, h.st.skipped), y) == Yield(k.obs, k.st.skipped)
  }

  lemma {:induction false} PathAppends(h: Haul, parts: seq<PathPart>, R: Readers)
    ensures var timed, k := Filter(parts, HasTime(R)), AddPoints(h, parts, R);
            && |timed| <= |parts|
            && k.obs == h.obs.(points := h.obs.points + Map(timed, PointOf(R)))
            && k.st.skipped == h.st.skipped + |parts| - |timed|
  {
    if parts == [] {
      assert h.obs.points + [] == h.obs.points && Map([], PointOf(R)) == [];
    } else {
      var front, part := Front(parts), Last(parts);
      PathAppends(h, front, R);
      var timed := Filter(front, HasTime(R));
      if HasTime(R)(part) {
        assert Front(timed + [part]) == timed;
        assert Map(timed + [part], PointOf(R)) == Map(timed, PointOf(R)) + [PointOf(R)(part)];
        hide Map, Filter;
        assert h.obs.points + Map(timed, PointOf(R)) + [PointOf(R)(part)]
            == h.obs.points + (Map(timed, PointOf(R)) + [PointOf(R)(part)]);
      }
    }
  }

  lemma PathYields(h: Haul, parts: seq<PathPart>, R: Readers)
    ensures var timed := Filter(parts, HasTime(R));
            |timed| <= |parts|
            && GrowsBy(h, AddPoints(h, parts, R), Yield(NO_OBS.(points := Map(timed, PointOf(R))), |parts| - |timed|))
  {
    PathAppends(h, parts, R);
    hide AddPoints, Filter, Map;
  }

  lemma EntryYields(h: Haul, section: Section, v: Json, R: Readers)
    ensures GrowsBy(h, AddEntry(h, section, Tokens(v), R), YieldOf((section, v), R))
  {
    hide Tokens, AddPoints, Filter, Map;
    match section
    case Segments =>
      if R.segment(Tokens(v)).Some? {
        var seg := R.segment(Tokens(v)).value;
        if seg.visit.None? && seg.activity.None? && seg.path.Some? {
          PathYields(h, seg.path.value, R);
        }
      }
    case Signals =>
  }

  lemma GrowsTwice(a: Haul, b: Haul, c: Haul, y: Yield, z: Yield)
    requires GrowsBy(a, b, y) && GrowsBy(b, c, z)
    ensures GrowsBy(a, c, Both(y, z))
  {
  }

  lemma {:induction false} ItemsYield(items: Items, h: Haul, section: Section, R: Readers)
    ensures GrowsBy(h, ItemsMean(items, h, section, R), Together(Tagged(section, items), R))
  {
    hide AddEntry, YieldOf, Tokens;
    match items
    case NoItem =>
    case Item(v, rest) =>
      var next := AddEntry(h, section, Tokens(v), R);
      EntryYields(h, section, v, R);
      ItemsYield(rest, next, section, R);
      var entries := Tagged(section, items);
      assert entries[0] == (section, v) && entries[1..] == Tagged(section, rest);
      GrowsTwice(h, next, ItemsMean(items, h, section, R), YieldOf((section, v), R),
                 Together(Tagged(section, rest), R));
  }

  lemma {:induction false} TogetherConcat(a: seq<(Section, Json)>, b: seq<(Section, Json)>, R: Readers)
    ensures Together(a + b, R) == Both(Together(a, R), Together(b, R))
  {
    hide YieldOf, Both;
    if a == [] {
      assert a + b == b;
      NothingMore(Together(b, R));
    } else {
      TogetherConcat(a[1..], b, R);
      assert (a + b)[0] == a[0] && (a + b)[1..] == a[1..] + b;
      BothAssociates(YieldOf(a[0], R), Together(a[1..], R), Together(b, R));
    }
  }

  lemma NothingMore(y: Yield)
    ensures Both(Yield(NO_OBS, 0), y) == y
  {
  }

  lemma BothAssociates(x: Yield, y: Yield, z: Yield)
    ensures Both(Both(x, y), z) == Both(x, Both(y, z))
  {
  }

  lemma {:induction false} MembersYield(members: Members, h: Haul, found: bool, R: Readers)
    requires MembersMean(members, h, found, R).Ok?
    ensures GrowsBy(h, MembersMean(members, h, found, R).value.0, Together(EntriesOf(members), R))
  {
    match members
    case NoMember =>
    case Member(key, v, rest) =>
      hide Together, ItemsMean, Tagged;
      var next := MemberMeans(key, v, h, R).value;
      var mine := if !v.Array? then [] else if key == SEGMENTS_KEY then Tagged(Segments, v.items)
                  else if key == SIGNALS_KEY then Tagged(Signals, v.items) else [];
      TogetherNone(h, R);
      if v.Array? {
        ItemsYield(v.items, h, Segments, R);
        ItemsYield(v.items, h, Signals, R);
      }
      MembersYield(rest, next, found || key == SEGMENTS_KEY, R);
      TogetherConcat(mine, EntriesOf(rest), R);
      GrowsTwice(h, next, MembersMean(members, h, found, R).value.0, Together(mine, R), Together(EntriesOf(rest), R));
  }

  lemma TogetherNone(h: Haul, R: Readers)
    ensures GrowsBy(h, h, Together([], R))
  {
  }

  /** A readable export gives what its entries yield, in document order, and skips what they do not. */
  lemma ExportYields(doc: Members, R: Readers)
    requires Meaning(doc, R).Ok?
    ensures Meaning(doc, R).value.obs == Together(EntriesOf(doc), R).obs
    ensures Meaning(doc, R).value.st.skipped == Together(EntriesOf(doc), R).skipped
  {
    hide MembersMean, Together;
    MembersYield(doc, NOTHING, false, R);
    var y := Together(EntriesOf(doc), R);
    assert [] + y.obs.visits == y.obs.visits && [] + y.obs.activities == y.obs.activities;
    assert [] + y.obs.points == y.obs.points && [] + y.obs.raws == y.obs.raws;
  }

  // ---- Streaming reads the tree ----

  lemma {:induction false} EntriesReadItems(items: Items, rest: seq<Token>, h: Haul, section: Section, ending: Error,
                                            R: Readers)
    ensures ReadEntries(ItemTokens(items) + ([CloseArray] + rest), h, section, ending, R)
         == Ok((rest, ItemsMean(items, h, section, R)))
  {
    hide SkipValue, AddEntry;
    match items
    case NoItem =>
      assert ItemTokens(items) + ([CloseArray] + rest) == [CloseArray] + rest;
      Uncons(CloseArray, rest);
    case Item(v, more) =>
      var tail := ItemTokens(more) + ([CloseArray] + rest);
      var ts := ItemTokens(items) + ([CloseArray] + rest);
      assert ts == Tokens(v) + tail;
      hide Tokens;
      SkipExact(v, tail);
      assert ts[..|ts| - |tail|] == Tokens(v) && ts[0] == Tokens(v)[0];
      EntriesReadItems(more, rest, AddEntry(h, section, Tokens(v), R), section, ending, R);
  }

  lemma ArrayReadValue(v: Json, rest: seq<Token>, h: Haul, section: Section, ending: Error, R: Readers)
    ensures ReadArray(Tokens(v) + rest, h, section, ending, R)
         == if v.Array? then Ok((rest, ItemsMean(v.items, h, section, R))) else Err(Malformed)
  {
    hide ReadEntries;
    if v.Array? {
      var inner := ItemTokens(v.items) + ([CloseArray] + rest);
      assert Tokens(v) + rest == [OpenArray] + inner;
      Uncons(OpenArray, inner);
      EntriesReadItems(v.items, rest, h, section, ending, R);
    } else {
      assert (Tokens(v) + rest)[0] == Tokens(v)[0] != OpenArray;
    }
  }

  lemma MemberReadsValue(key: string, v: Json, rest: seq<Token>, h: Haul, ending: Error, R: Readers)
    ensures ReadMember(key, Tokens(v) + rest, h, ending, R)
         == match MemberMeans(key, v, h, R) case Err(e) => Err(e) case Ok(more) => Ok((rest, more))
  {
    hide ReadArray, SkipValue, Tokens;
    if key == SEGMENTS_KEY {
      ArrayReadValue(v, rest, h, Segments, ending, R);
    } else if key == SIGNALS_KEY {
      ArrayReadValue(v, rest, h, Signals, ending, R);
    } else {
      SkipExact(v, rest);
    }
  }

  lemma {:induction false} MembersReadTree(doc: Members, rest: seq<Token>, h: Haul, found: bool, ending: Error,
                                           R: Readers)
    ensures ReadMembers(MemberTokens(doc) + ([CloseObject] + rest), h, found, ending, R)
         == match MembersMean(doc, h, found, R) case Err(e) => Err(e) case Ok((more, f)) => Ok((rest, more, f))
  {
    hide ReadMember, MemberMeans;
    match doc
    case NoMember =>
      assert MemberTokens(doc) + ([CloseObject] + rest) == [CloseObject] + rest;
      Uncons(CloseObject, rest);
    case Member(key, v, more) =>
      var tail := MemberTokens(more) + ([CloseObject] + rest);
      assert MemberTokens(doc) + ([CloseObject] + rest) == [Str(key)] + (Tokens(v) + tail);
      hide Tokens;
      Uncons(Str(key), Tokens(v) + tail);
      MemberReadsValue(key, v, tail, h, ending, R);
      var m := MemberMeans(key, v, h, R);
      if m.Ok? {
        MembersReadTree(more, rest, m.value, found || key == SEGMENTS_KEY, ending, R);
      }
  }

  /** Reading the tokens of a document, whatever follows it, gives exactly its meaning. */
  lemma StreamReadsTree(doc: Members, rest: seq<Token>, ending: Error, R: Readers)
    ensures ReadExport(Tokens(Object(doc)) + rest, ending, R) == Meaning(doc, R)
  {
    hide ReadMembers, MembersMean;
    var inner := MemberTokens(doc) + ([CloseObject] + rest);
    assert Tokens(Object(doc)) + rest == [OpenObject] + inner;
    Uncons(OpenObject, inner);
    MembersReadTree(doc, rest, NOTHING, false, ending, R);
  }

  lemma {:induction false} MembersMeanJoined(a: Members, b: Members, h: Haul, found: bool, R: Readers)
    ensures MembersMean(Joined(a, b), h, found, R)
         == match MembersMean(a, h, found, R) case Err(e) => Err(e) case Ok((more, f)) => MembersMean(b, more, f, R)
  {
    hide MemberMeans;
    match a
    case NoMember =>
    case Member(key, v, rest) =>
      var m := MemberMeans(key, v, h, R);
      if m.Ok? {
        MembersMeanJoined(rest, b, m.value, found || key == SEGMENTS_KEY, R);
      }
  }

  /** So reading the tokens of a readable export collects what its entries yield. */
  lemma ParsedYields(doc: Members, rest: seq<Token>, ending: Error, R: Readers)
    requires ReadExport(Tokens(Object(doc)) + rest, ending, R).Ok?
    ensures var h := ReadExport(Tokens(Object(doc)) + rest, ending, R).value;
            h.obs == Together(EntriesOf(doc), R).obs && h.st.skipped == Together(EntriesOf(doc), R).skipped
  {
    hide ReadExport, Together, Tokens, Meaning;
    StreamReadsTree(doc, rest, ending, R);
    ExportYields(doc, R);
  }

  /** An unknown top-level key, holding anything, anywhere, changes neither observations nor counts. */
  lemma UnknownKeysAreInert(a: Members, key: string, v: Json, b: Members, ending: Error, R: Readers)
    requires key != SEGMENTS_KEY && key != SIGNALS_KEY
    ensures ReadExport(Tokens(Object(Joined(a, Member(key, v, b)))), ending, R)
         == ReadExport(Tokens(Object(Joined(a, b))), ending, R)
  {
    var with, without := Joined(a, Member(key, v, b)), Joined(a, b);
    MembersMeanJoined(a, Member(key, v, b), NOTHING, false, R);
    MembersMeanJoined(a, b, NOTHING, false, R);
    hide ReadExport, Tokens, Joined;
    StreamReadsTree(with, [], ending, R);
    StreamReadsTree(without, [], ending, R);
    assert Tokens(Object(with)) + [] == Tokens(Object(with)) && Tokens(Object(without)) + [] == Tokens(Object(without));
  }

  // ---- Files that end early ----

  /** `longer` is what reading more input gives, when reading `ts` alone did not run out of it. */
  ghost predicate Extends<T>(short: Result<(seq<Token>, T)>, longer: Result<(seq<Token>, T)>, more: seq<Token>,
                             ending: Error) {
    match short
    case Ok((rest, x)) => longer == Ok((rest + more, x))
    case Err(e) => e == ending || longer == short
  }

  lemma {:induction false} EntriesExtend(ts: seq<Token>, more: seq<Token>, h: Haul, section: Section, ending: Error,
                                         R: Readers)
    ensures Extends(ReadEntries(ts, h, section, ending, R), ReadEntries(ts + more, h, section, ending, R), more, ending)
    decreases |ts|
  {
    hide SkipValue, AddEntry;
    if ts != [] {
      assert (ts + more)[0] == ts[0] && (ts + more)[1..] == ts[1..] + more;
      if !Closes(ts[0]) && SkipValue(ts).Some? {
        SkipExtends(ts, more);
        var rest := SkipValue(ts).value;
        var n := |ts| - |rest|;
        assert (ts + more)[..|ts + more| - |rest + more|] == ts[..n];
        EntriesExtend(rest, more, AddEntry(h, section, ts[..n], R), section, ending, R);
      }
    }
  }

  lemma ArrayExtends(ts: seq<Token>, more: seq<Token>, h: Haul, section: Section, ending: Error, R: Readers)
    ensures Extends(ReadArray(ts, h, section, ending, R), ReadArray(ts + more, h, section, ending, R), more, ending)
  {
    hide ReadEntries;
    if ts != [] {
      assert (ts + more)[0] == ts[0] && (ts + more)[1..] == ts[1..] + more;
      EntriesExtend(ts[1..], more, h, section, ending, R);
    }
  }

  lemma MemberExtends(key: string, ts: seq<Token>, more: seq<Token>, h: Haul, ending: Error, R: Readers)
    ensures Extends(ReadMember(key, ts, h, ending, R), ReadMember(key, ts + more, h, ending, R), more, ending)
  {
    hide ReadArray, SkipValue;
    if key == SEGMENTS_KEY {
      ArrayExtends(ts, more, h, Segments, ending, R);
    } else if key == SIGNALS_KEY {
      ArrayExtends(ts, more, h, Signals, ending, R);
    } else if SkipValue(ts).Some? {
      SkipExtends(ts, more);
    }
  }

  ghost predicate MembersExtended(short: Result<(seq<Token>, Haul, bool)>, longer: Result<(seq<Token>, Haul, bool)>,
                                  more: seq<Token>, ending: Error)
  {
    match short
    case Ok((rest, h, f)) => longer == Ok((rest + more, h, f))
    case Err(e) => e == ending || longer == short
  }

  lemma {:induction false} MembersExtend(ts: seq<Token>, more: seq<Token>, h: Haul, found: bool, ending: Error,
                                         R: Readers)
    ensures var short, long := ReadMembers(ts, h, found, ending, R), ReadMembers(ts + more, h, found, ending, R);
            MembersExtended(short, long, more, ending)
    decreases |ts|
  {
    hide ReadMember;
    if ts != [] {
      assert (ts + more)[0] == ts[0] && (ts + more)[1..] == ts[1..] + more;
      if ts[0].Str? {
        MemberExtends(ts[0].s, ts[1..], more, h, ending, R);
        var r := ReadMember(ts[0].s, ts[1..], h, ending, R);
        if r.Ok? {
          MembersExtend(r.value.0, more, r.value.1, found || ts[0].s == SEGMENTS_KEY, ending, R);
        }
      }
    }
  }

  lemma MembersCutShort(doc: Members, n: nat, ending: Error, R: Readers)
    requires MembersMean(doc, NOTHING, false, R).Ok? && n < |MemberTokens(doc)| + 1
    ensures ReadMembers((MemberTokens(doc) + [CloseObject])[..n], NOTHING, false, ending, R) == Err(ending)
  {
    hide ReadMembers, MembersMean, MemberTokens;
    var inner := MemberTokens(doc) + ([CloseObject] + []);
    MembersReadTree(doc, [], NOTHING, false, ending, R);
    assert inner == MemberTokens(doc) + [CloseObject] && inner[..n] + inner[n..] == inner;
    MembersExtend(inner[..n], inner[n..], NOTHING, false, ending, R);
  }

  /** A supported export that stops early, at any token, is reported as cut short or broken, never as read. */
  lemma CutShortIsNoticed(doc: Members, n: nat, ending: Error, R: Readers)
    requires n < |Tokens(Object(doc))| && Meaning(doc, R).Ok?
    ensures ReadExport(Tokens(Object(doc))[..n], ending, R) == Err(ending)
  {
    var inner := MemberTokens(doc) + [CloseObject];
    assert Tokens(Object(doc)) == [OpenObject] + inner;
    hide ReadMembers, Tokens, MembersMean;
    if n > 0 {
      assert ([OpenObject] + inner)[..n] == [OpenObject] + inner[..n - 1];
      Uncons(OpenObject, inner[..n - 1]);
      MembersCutShort(doc, n - 1, ending, R);
    }
  }

  // ---- Counts ----

  /** Every count is the number of observations of its kind. */
  predicate Tallied(h: Haul) {
    && h.st.visits == |h.obs.visits| && h.st.activities == |h.obs.activities|
    && h.st.points == |h.obs.points| && h.st.raws == |h.obs.raws|
  }

  /** Observations are only appended, in source order, and every skip is counted. */
  ghost predicate Appends(h: Haul, k: Haul) {
    && h.obs.visits <= k.obs.visits && h.obs.activities <= k.obs.activities
    && h.obs.points <= k.obs.points && h.obs.raws <= k.obs.raws
    && h.st.skipped <= k.st.skipped
  }

  /** Each timed point of a path is either kept or counted as skipped. */
  lemma {:induction false} PointsAreKeptOrSkipped(h: Haul, parts: seq<PathPart>, R: Readers)
    requires Tallied(h)
    ensures var k := AddPoints(h, parts, R);
            && Tallied(k) && Appends(h, k)
            && |k.obs.points| + k.st.skipped == |h.obs.points| + h.st.skipped + |parts|
  {
    if parts != [] {
      PointsAreKeptOrSkipped(h, Front(parts), R);
    }
  }

  lemma EntryTallied(h: Haul, section: Section, ts: seq<Token>, R: Readers)
    requires Tallied(h)
    ensures Tallied(AddEntry(h, section, ts, R)) && Appends(h, AddEntry(h, section, ts, R))
  {
    hide AddPoints;
    if section == Segments && R.segment(ts).Some? && R.segment(ts).value.path.Some? {
      PointsAreKeptOrSkipped(h, R.segment(ts).value.path.value, R);
    }
  }

  lemma {:induction false} ItemsTallied(items: Items, h: Haul, section: Section, R: Readers)
    requires Tallied(h)
    ensures Tallied(ItemsMean(items, h, section, R)) && Appends(h, ItemsMean(items, h, section, R))
  {
    hide AddEntry;
    match items
    case NoItem =>
    case Item(v, rest) =>
      EntryTallied(h, section, Tokens(v), R);
      ItemsTallied(rest, AddEntry(h, section, Tokens(v), R), section, R);
  }

  lemma {:induction false} MembersTallied(doc: Members, h: Haul, found: bool, R: Readers)
    requires Tallied(h)
    ensures var r := MembersMean(doc, h, found, R); r.Ok? ==> Tallied(r.value.0) && Appends(h, r.value.0)
  {
    hide ItemsMean;
    match doc
    case NoMember =>
    case Member(key, v, rest) =>
      if v.Array? {
        ItemsTallied(v.items, h, Segments, R);
        ItemsTallied(v.items, h, Signals, R);
      }
      var m := MemberMeans(key, v, h, R);
      if m.Ok? {
        MembersTallied(rest, m.value, found || key == SEGMENTS_KEY, R);
      }
  }

  /** The reported counts are those of the observations handed on. */
  lemma StatsAreCounts(doc: Members, R: Readers)
    requires Meaning(doc, R).Ok?
    ensures Tallied(Meaning(doc, R).value)
  {
    MembersTallied(doc, NOTHING, false, R);
  }

  // ---- The decoder ----

  /** A position in a token stream; `ending` is what lies behind the last token. */
  class Decoder {
    var tokens: seq<Token>
    const ending: Error

    constructor (tokens: seq<Token>, ending: Error)
      ensures this.tokens == tokens && this.ending == ending
    {
      this.tokens, this.ending := tokens, ending;
    }

    /** Another element before the enclosing bracket closes? */
    predicate More()
      reads this
    {
      tokens != [] && !Closes(tokens[0])
    }

    method Next() returns (t: Result<Token>)
      modifies this
      ensures if old(tokens) == [] then t == Err(ending) && tokens == []
              else t == Ok(old(tokens)[0]) && tokens == old(tokens)[1..]
    {
      if tokens == [] {
        return Err(ending);
      }
      t := Ok(tokens[0]);
      tokens := tokens[1..];
    }

    /** Moves past the next value, however deeply it is nested. */
    method Skip() returns (ok: bool)
      modifies this
      ensures ok <==> SkipValue(old(tokens)).Some?
      ensures ok ==> tokens == SkipValue(old(tokens)).value
    {
      var t := Next();
      if t.Err? {
        return false;
      }
      if Opens(t.value) {
        var depth: nat := 1;
        while depth > 0
          invariant Unnest(tokens, depth) == Unnest(old(tokens)[1..], 1)
          decreases |tokens|, depth
        {
          t := Next();
          if t.Err? {
            return false;
          }
          depth := if Opens(t.value) then depth + 1 else if Closes(t.value) then depth - 1 else depth;
        }
      }
      ok := true;
    }

    /** Reads the tokens of one value. */
    method Value() returns (v: Option<seq<Token>>)
      modifies this
      ensures v.Some? <==> SkipValue(old(tokens)).Some?
      ensures v.Some? ==> tokens == SkipValue(old(tokens)).value && v.value == old(tokens)[..|old(tokens)| - |tokens|]
    {
      var before := tokens;
      var ok := Skip();
      v := if ok then Some(before[..|before| - |tokens|]) else None;
    }

    method ReadSection(h: Haul, section: Section, R: Readers) returns (r: Result<Haul>)
      modifies this
      ensures match ReadArray(old(tokens), h, section, ending, R)
              case Ok((rest, k)) => r == Ok(k) && tokens == rest
              case Err(e) => r == Err(e)
    {
      hide SkipValue, AddEntry;
      var t := Next();
      if t.Err? {
        return Err(t.error);
      }
      if t.value != OpenArray {
        return Err(Malformed);
      }
      var haul := h;
      while More()
        invariant ReadEntries(tokens, haul, section, ending, R) == ReadEntries(old(tokens)[1..], h, section, ending, R)
        decreases |tokens|
      {
        var v := Value();
        if v.None? {
          return Err(ending);
        }
        haul := AddEntry(haul, section, v.value, R);
      }
      t := Next();
      if t.Err? {
        return Err(t.error);
      }
      r := if t.value == CloseArray then Ok(haul) else Err(Malformed);
    }

    /** The whole file; a supported export names its segments. */
    method Parse(R: Readers) returns (r: Result<Haul>)
      modifies this
      ensures r == ReadExport(old(tokens), ending, R)
    {
      hide ReadArray, SkipValue;
      var t := Next();
      if t.Err? {
        return Err(t.error);
      }
      if t.value != OpenObject {
        return Err(Malformed);
      }
      var haul, found := NOTHING, false;
      while More()
        invariant ReadMembers(tokens, haul, found, ending, R)
               == ReadMembers(old(tokens)[1..], NOTHING, false, ending, R)
        decreases |tokens|
      {
        ghost var was := tokens;
        t := Next();
        if !t.value.Str? {
          return Err(Malformed);
        }
        var key := t.value.s;
        if key == SEGMENTS_KEY || key == SIGNALS_KEY {
          found := found || key == SEGMENTS_KEY;
          var section := ReadSection(haul, if key == SEGMENTS_KEY then Segments else Signals, R);
          if section.Err? {
            return Err(section.error);
          }
          haul := section.value;
        } else {
          var ok := Skip();
          if !ok {
            return Err(ending);
          }
        }
        assert |tokens| < |was|;
      }
      t := Next();
      if t.Err? {
        return Err(t.error);
      }
      if t.value != CloseObject {
        return Err(Malformed);
      }
      r := if found then Ok(haul) else Err(Unrecognised);
    }
  }
}
