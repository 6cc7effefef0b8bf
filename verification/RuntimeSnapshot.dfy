// The persisted connect-ticket state: what a snapshot holds, how it is turned
// into a JSON document, and the strict reader that decides whether a document
// found on disk may be trusted.
module RuntimeSnapshot {
  import opened Wrappers
  import Texts

  const MAX_SAFE_INTEGER := 9007199254740991
  // The largest instant a JavaScript Date can hold, in milliseconds and in whole seconds.
  const MAX_DATE_MS := 8640000000000000
  const MAX_DATE_SECONDS := 8640000000000
  const MAX_COMPLETED_RECYCLE_TOKENS := 128

  // A string value. `Stamp(ms)` is any text that Date.parse reads as the instant `ms`;
  // `Plain` is any text it cannot read.
  datatype Text = Stamp(ms: int) | Plain(chars: string)

  // One JSON value, or the absence of a property. A number with a fractional part is
  // kept as the integer just below it.
  datatype Json =
    | Undefined | Null | Bool(flag: bool) | Whole(n: int) | Fraction(floor: int)
    | Str(text: Text) | Arr(items: seq<Json>) | Object

  datatype Document = Document(
    cutoff: Json,
    cutoffUtc: Json,
    reason: Json,
    commandType: Json,
    commandId: Json,
    updatedAt: Json,
    recoveryRequired: Json,
    readyNotBefore: Json,
    viewerRequest: Json,
    viewerSession: Json,
    firstAdmitted: Json,
    completedTokens: Json)

  datatype Snapshot = Snapshot(
    cutoff: Option<int>,
    cutoffUtc: Option<Text>,
    reason: Option<Text>,
    commandType: Option<Text>,
    commandId: Option<Text>,
    updatedAt: Option<Text>,
    recoveryRequired: bool,
    readyNotBefore: Option<int>,
    viewerRequest: Option<string>,
    viewerSession: Option<string>,
    firstAdmitted: Option<Text>,
    completedTokens: seq<string>)

  // ---- text and date helpers ----

  function NormalizeText(t: Text): (r: Option<Text>) {
    match t
    case Stamp(_) => Some(t)
    case Plain(s) => if Texts.Trim(s) == [] then None else Some(Plain(Texts.Trim(s)))
  }

  function NormalizeJsonText(v: Json): Option<Text> {
    if v.Str? then NormalizeText(v.text) else None
  }

  function DateParse(t: Text): Option<int> {
    if t.Stamp? && -MAX_DATE_MS <= t.ms <= MAX_DATE_MS then Some(t.ms) else None
  }

  // parseUtcToEpochSeconds: division rounds towards minus infinity.
  function UtcSeconds(t: Text): Option<int> {
    match DateParse(t)
    case None => None
    case Some(ms) => Some(ms / 1000)
  }

  // toUtcIsoString, which throws outside the range of a Date.
  predicate HasUtc(seconds: int) {
    -MAX_DATE_SECONDS <= seconds <= MAX_DATE_SECONDS
  }

  function ToUtc(seconds: int): (t: Text)
    requires HasUtc(seconds)
    ensures UtcSeconds(t) == Some(seconds)
  {
    Stamp(seconds * 1000)
  }

  function GuidOf(v: Json): Option<string> {
    if v.Str? && v.text.Plain? then Texts.NormalizeGuid(v.text.chars) else None
  }

  function TokenOf(v: Json): Option<string> {
    if v.Str? && v.text.Plain? then Texts.NormalizeRecycleToken(v.text.chars) else None
  }

  // ---- the completed-token fence ----

  // new Set(...) keeps the first occurrence of every token, in order.
  function Dedupe(tokens: seq<string>): (r: seq<string>)
    ensures forall t :: t in r <==> t in tokens
    ensures NoDuplicates(r)
    ensures NoDuplicates(tokens) ==> r == tokens
  {
    if tokens == [] then []
    else
      var front := Dedupe(tokens[..|tokens| - 1]);
      var last := tokens[|tokens| - 1];
      if last in front then front else front + [last]
  }

  ghost predicate NoDuplicates(tokens: seq<string>) {
    forall i, j :: 0 <= i < j < |tokens| ==> tokens[i] != tokens[j]
  }

  // slice(-128)
  function LastTokens(tokens: seq<string>): seq<string> {
    if |tokens| <= MAX_COMPLETED_RECYCLE_TOKENS then tokens
    else tokens[|tokens| - MAX_COMPLETED_RECYCLE_TOKENS..]
  }

  function NormalTokens(items: seq<Json>): (r: seq<string>)
    ensures forall t :: t in r ==> Texts.NormalizeRecycleToken(t) == Some(t)
  {
    if items == [] then []
    else
      var front := NormalTokens(items[..|items| - 1]);
      match TokenOf(items[|items| - 1])
      case None => front
      case Some(t) =>
        Texts.NormalizeRecycleTokenTwice(items[|items| - 1].text.chars);
        front + [t]
  }

  function FenceOf(v: Json): seq<string> {
    if v.Arr? then LastTokens(Dedupe(NormalTokens(v.items))) else []
  }

  // ---- normalizeRuntimeStateSnapshot ----

  function NormalizeEpoch(v: Json): Option<int> {
    match v
    case Whole(n) => if n >= 0 then Some(n) else None
    case Fraction(f) => if f >= 0 then Some(f) else None
    case _ => None
  }

  // None when deriving the cutoff text throws.
  function Normalize(d: Document): (r: Option<Snapshot>) {
    var cutoff := NormalizeEpoch(d.cutoff);
    var utc := NormalizeJsonText(d.cutoffUtc);
    if utc.None? && cutoff.Some? && !HasUtc(cutoff.value) then None
    else
      Some(Snapshot(
        cutoff,
        if utc.Some? then utc else if cutoff.Some? then Some(ToUtc(cutoff.value)) else None,
        NormalizeJsonText(d.reason),
        NormalizeJsonText(d.commandType),
        NormalizeJsonText(d.commandId),
        NormalizeJsonText(d.updatedAt),
        d.recoveryRequired == Bool(true),
        NormalizeEpoch(d.readyNotBefore),
        GuidOf(d.viewerRequest),
        GuidOf(d.viewerSession),
        NormalizeJsonText(d.firstAdmitted),
        FenceOf(d.completedTokens)))
  }

  // ---- parsePersistedRuntimeStateSnapshot ----

  predicate OptionalText(v: Json) {
    v == Undefined || (v.Str? && NormalizeText(v.text).Some?)
  }

  predicate OptionalDate(v: Json) {
    v == Undefined || (v.Str? && DateParse(v.text).Some?)
  }

  predicate SafeEpoch(v: Json) {
    v.Whole? && 0 <= v.n <= MAX_SAFE_INTEGER
  }

  predicate ViewerFieldsConsistent(d: Document) {
    var anyField := d.viewerRequest != Undefined || d.viewerSession != Undefined || d.firstAdmitted != Undefined;
    && (anyField ==>
          GuidOf(d.viewerRequest).Some? && d.firstAdmitted.Str? && DateParse(d.firstAdmitted.text).Some?)
    && (d.viewerSession != Undefined ==> GuidOf(d.viewerSession).Some?)
  }

  predicate FenceAcceptable(v: Json) {
    v == Undefined || (v.Arr? && forall i :: 0 <= i < |v.items| ==> TokenOf(v.items[i]).Some?)
  }

  predicate Acceptable(d: Document) {
    && SafeEpoch(d.cutoff)
    && (d.cutoffUtc == Undefined || (d.cutoffUtc.Str? && UtcSeconds(d.cutoffUtc.text) == Some(d.cutoff.n)))
    && OptionalText(d.reason) && OptionalText(d.commandType) && OptionalText(d.commandId)
    && OptionalDate(d.updatedAt)
    && (d.recoveryRequired == Undefined || d.recoveryRequired.Bool?)
    && (d.readyNotBefore == Undefined ||
        (SafeEpoch(d.readyNotBefore) && d.recoveryRequired == Bool(true) && d.readyNotBefore.n >= d.cutoff.n))
    && ViewerFieldsConsistent(d)
    && FenceAcceptable(d.completedTokens)
  }

  function Parse(d: Document): Option<Snapshot> {
    if Acceptable(d) then Normalize(d) else None
  }

  // ---- JSON.stringify ----

  function JsonText(t: Option<Text>): Json {
    if t.Some? then Str(t.value) else Undefined
  }

  function JsonNumber(n: Option<int>): Json {
    if n.Some? then Whole(n.value) else Undefined
  }

  function JsonString(s: Option<string>): Json {
    if s.Some? then Str(Plain(s.value)) else Undefined
  }

  function JsonTokens(tokens: seq<string>): (items: seq<Json>)
    ensures |items| == |tokens|
    ensures forall i :: 0 <= i < |tokens| ==> items[i] == Str(Plain(tokens[i]))
  {
    if tokens == [] then [] else JsonTokens(tokens[..|tokens| - 1]) + [Str(Plain(tokens[|tokens| - 1]))]
  }

  function JsonFence(tokens: seq<string>): Json {
    if tokens == [] then Undefined else Arr(JsonTokens(tokens))
  }

  function ToDocument(s: Snapshot): Document {
    Document(
      JsonNumber(s.cutoff),
      JsonText(s.cutoffUtc),
      JsonText(s.reason),
      JsonText(s.commandType),
      JsonText(s.commandId),
      JsonText(s.updatedAt),
      if s.recoveryRequired then Bool(true) else Undefined,
      JsonNumber(s.readyNotBefore),
      JsonString(s.viewerRequest),
      JsonString(s.viewerSession),
      JsonText(s.firstAdmitted),
      JsonFence(s.completedTokens))
  }

  // ---- what a trustworthy snapshot looks like ----

  predicate NormalText(t: Option<Text>) {
    t.Some? ==> NormalizeText(t.value) == t
  }

  predicate NormalGuid(g: Option<string>) {
    g.Some? ==> Texts.NormalizeGuid(g.value) == g
  }

  predicate SafeOption(n: Option<int>) {
    n.Some? ==> 0 <= n.value <= MAX_SAFE_INTEGER
  }

  ghost predicate NormalFence(tokens: seq<string>) {
    && |tokens| <= MAX_COMPLETED_RECYCLE_TOKENS
    && NoDuplicates(tokens)
    && forall t :: t in tokens ==> Texts.NormalizeRecycleToken(t) == Some(t)
  }

  ghost predicate Canonical(s: Snapshot) {
    CanonicalFields(s) && NormalFence(s.completedTokens)
  }

  ghost predicate CanonicalFields(s: Snapshot) {
    && s.cutoff.Some? && SafeOption(s.cutoff)
    && s.cutoffUtc.Some? && UtcSeconds(s.cutoffUtc.value) == s.cutoff
    && NormalText(s.reason) && NormalText(s.commandType) && NormalText(s.commandId)
    && (s.updatedAt.Some? ==> DateParse(s.updatedAt.value).Some?)
    && (s.readyNotBefore.Some? ==>
          SafeOption(s.readyNotBefore) && s.recoveryRequired && s.readyNotBefore.value >= s.cutoff.value)
    && NormalGuid(s.viewerRequest) && NormalGuid(s.viewerSession)
    && (s.viewerRequest.Some? <==> s.firstAdmitted.Some?)
    && (s.viewerSession.Some? ==> s.viewerRequest.Some?)
    && (s.firstAdmitted.Some? ==> DateParse(s.firstAdmitted.value).Some?)
  }

  lemma {:induction false} TokensRoundTrip(tokens: seq<string>)
    requires forall t :: t in tokens ==> Texts.NormalizeRecycleToken(t) == Some(t)
    ensures NormalTokens(JsonTokens(tokens)) == tokens
  {
    if tokens != [] {
      var front, last := tokens[..|tokens| - 1], tokens[|tokens| - 1];
      TokensRoundTrip(front);
      assert JsonTokens(tokens)[..|tokens| - 1] == JsonTokens(front);
      assert last in tokens;
      assert tokens == front + [last];
    }
  }

  lemma NormalTextFixed(t: Text)
    requires NormalizeText(t).Some?
    ensures NormalizeText(NormalizeText(t).value) == NormalizeText(t)
  {
    if t.Plain? {
      Texts.TrimTwice(t.chars);
    }
  }

  lemma TextFieldRoundTrip(t: Option<Text>)
    requires NormalText(t)
    ensures NormalizeJsonText(JsonText(t)) == t
  {
  }

  lemma GuidFieldRoundTrip(g: Option<string>)
    requires NormalGuid(g)
    ensures GuidOf(JsonString(g)) == g
  {
  }

  lemma FenceFieldRoundTrip(tokens: seq<string>)
    requires NormalFence(tokens)
    ensures FenceOf(JsonFence(tokens)) == tokens
    ensures FenceAcceptable(JsonFence(tokens))
  {
    TokensRoundTrip(tokens);
    forall i | 0 <= i < |tokens|
      ensures TokenOf(JsonTokens(tokens)[i]).Some?
    {
      assert tokens[i] in tokens;
    }
  }

  lemma FieldsAcceptable(s: Snapshot)
    requires CanonicalFields(s) && FenceAcceptable(JsonFence(s.completedTokens))
    ensures Acceptable(ToDocument(s))
  {
    hide FenceAcceptable, JsonFence, ViewerFieldsConsistent, Texts.NormalizeGuid, Texts.Trim;
    ViewerFieldsAcceptable(s);
  }

  lemma ViewerFieldsAcceptable(s: Snapshot)
    requires CanonicalFields(s)
    ensures ViewerFieldsConsistent(ToDocument(s))
  {
    hide JsonFence, NormalizeText, UtcSeconds, Texts.NormalizeGuid;
  }

  lemma DatesAreNormal(s: Snapshot)
    requires CanonicalFields(s)
    ensures NormalText(s.cutoffUtc) && NormalText(s.updatedAt) && NormalText(s.firstAdmitted)
    ensures NormalizeJsonText(JsonText(s.cutoffUtc)).Some?
    ensures NormalizeEpoch(JsonNumber(s.cutoff)) == s.cutoff && NormalizeEpoch(JsonNumber(s.readyNotBefore)) == s.readyNotBefore
  {
    hide Texts.NormalizeGuid;
  }

  lemma FieldsNormal(s: Snapshot)
    requires CanonicalFields(s) && FenceOf(JsonFence(s.completedTokens)) == s.completedTokens
    ensures Normalize(ToDocument(s)) == Some(s)
  {
    hide FenceOf, JsonFence, JsonText, JsonString, NormalizeJsonText, GuidOf, NormalText, NormalGuid, HasUtc, DateParse, UtcSeconds;
    DatesAreNormal(s);
    TextFieldRoundTrip(s.cutoffUtc);
    TextFieldRoundTrip(s.reason);
    TextFieldRoundTrip(s.commandType);
    TextFieldRoundTrip(s.commandId);
    TextFieldRoundTrip(s.updatedAt);
    TextFieldRoundTrip(s.firstAdmitted);
    GuidFieldRoundTrip(s.viewerRequest);
    GuidFieldRoundTrip(s.viewerSession);
  }

  // Normalising before a write only re-cuts the fence, and what is then written is canonical.
  lemma NormalizeBeforeWrite(s: Snapshot)
    requires CanonicalFields(s)
    requires forall t :: t in s.completedTokens ==> Texts.NormalizeRecycleToken(t) == Some(t)
    ensures var fenced := s.(completedTokens := LastTokens(Dedupe(s.completedTokens)));
            Normalize(ToDocument(s)) == Some(fenced) && Canonical(fenced)
  {
    hide CanonicalFields, FenceOf, JsonFence, NormalizeText, JsonText, JsonNumber, JsonString, GuidOf, HasUtc, NormalFence;
    var fence := LastTokens(Dedupe(s.completedTokens));
    FenceIsCut(s.completedTokens);
    FenceFieldRoundTrip(fence);
    var fenced := s.(completedTokens := fence);
    SameFields(s, fenced);
    FieldsNormal(fenced);
    assert Normalize(ToDocument(s)) == Normalize(ToDocument(fenced));
  }

  lemma SameFields(s: Snapshot, t: Snapshot)
    requires CanonicalFields(s) && t == s.(completedTokens := t.completedTokens)
    ensures CanonicalFields(t)
  {
    hide NormalText, NormalGuid, SafeOption, DateParse, UtcSeconds;
  }

  lemma FenceIsCut(tokens: seq<string>)
    requires forall t :: t in tokens ==> Texts.NormalizeRecycleToken(t) == Some(t)
    ensures NormalFence(LastTokens(Dedupe(tokens)))
    ensures FenceOf(JsonFence(tokens)) == LastTokens(Dedupe(tokens))
  {
    hide Texts.NormalizeRecycleToken;
    TokensRoundTrip(tokens);
    var all := Dedupe(tokens);
    var cut := LastTokens(all);
    forall t | t in cut
      ensures t in tokens
    {
      assert t in all;
    }
  }

  // Whatever document it accepts, the reader's result is canonical.
  lemma ReaderIsStrict(d: Document)
    requires Parse(d).Some?
    ensures Canonical(Parse(d).value)
  {
    TextFieldsCanonical(d);
    ViewerFieldsCanonical(d);
    FenceFieldCanonical(d);
    DateFieldsCanonical(d);
  }

  // The strict reader accepts exactly the canonical snapshots, and reads each back unchanged.
  lemma RoundTrip(s: Snapshot)
    ensures Canonical(s) <==> Parse(ToDocument(s)) == Some(s)
  {
    if Canonical(s) {
      FenceFieldRoundTrip(s.completedTokens);
      FieldsAcceptable(s);
      FieldsNormal(s);
    }
    if Parse(ToDocument(s)) == Some(s) {
      ReaderIsStrict(ToDocument(s));
    }
  }

  lemma DateFieldsCanonical(d: Document)
    requires Parse(d).Some?
    ensures var s := Parse(d).value;
            && s.cutoff.Some? && SafeOption(s.cutoff)
            && s.cutoffUtc.Some? && UtcSeconds(s.cutoffUtc.value) == s.cutoff
            && (s.updatedAt.Some? ==> DateParse(s.updatedAt.value).Some?)
            && (s.firstAdmitted.Some? ==> DateParse(s.firstAdmitted.value).Some?)
  {
  }

  lemma FenceFieldCanonical(d: Document)
    requires Parse(d).Some?
    ensures NormalFence(Parse(d).value.completedTokens)
  {
    if d.completedTokens.Arr? {
      FenceCanonical(d.completedTokens.items);
    }
  }

  lemma TextFieldsCanonical(d: Document)
    requires Parse(d).Some?
    ensures var s := Parse(d).value;
            NormalText(s.reason) && NormalText(s.commandType) && NormalText(s.commandId)
  {
    if d.reason.Str? { NormalTextFixed(d.reason.text); }
    if d.commandType.Str? { NormalTextFixed(d.commandType.text); }
    if d.commandId.Str? { NormalTextFixed(d.commandId.text); }
  }

  lemma ViewerFieldsCanonical(d: Document)
    requires Parse(d).Some?
    ensures var s := Parse(d).value; NormalGuid(s.viewerRequest) && NormalGuid(s.viewerSession)
  {
    if GuidOf(d.viewerRequest).Some? { Texts.NormalizeGuidTwice(d.viewerRequest.text.chars); }
    if GuidOf(d.viewerSession).Some? { Texts.NormalizeGuidTwice(d.viewerSession.text.chars); }
  }

  lemma FenceCanonical(items: seq<Json>)
    ensures NormalFence(LastTokens(Dedupe(NormalTokens(items))))
  {
  }

  // ---- the fence over many completions ----

  // What completing a recycle does to the fence once the snapshot has been normalised.
  function Complete(fence: seq<string>, token: string): (r: seq<string>) {
    LastTokens(Dedupe(fence + [token]))
  }

  function CompleteAll(fence: seq<string>, tokens: seq<string>): seq<string> {
    if tokens == [] then fence
    else Complete(CompleteAll(fence, tokens[..|tokens| - 1]), tokens[|tokens| - 1])
  }

  lemma CompleteStep(fence: seq<string>, token: string)
    requires NormalFence(fence)
    ensures Complete(fence, token) ==
            if token in fence then fence
            else if |fence| < MAX_COMPLETED_RECYCLE_TOKENS then fence + [token]
            else fence[1..] + [token]
  {
    assert (fence + [token])[..|fence|] == fence;
    assert Dedupe(fence + [token]) == if token in fence then fence else fence + [token];
  }

  lemma CompleteKeepsNormal(fence: seq<string>, token: string)
    requires NormalFence(fence) && Texts.NormalizeRecycleToken(token) == Some(token)
    ensures NormalFence(Complete(fence, token)) && token in Complete(fence, token)
  {
    CompleteStep(fence, token);
  }

  // The tokens of `tokens` that were not in the fence when they arrived.
  function Arrivals(fence: seq<string>, tokens: seq<string>): seq<string> {
    if tokens == [] then []
    else
      var front, last := tokens[..|tokens| - 1], tokens[|tokens| - 1];
      Arrivals(fence, front) + (if last in CompleteAll(fence, front) then [] else [last])
  }

  lemma QueueStep(all: seq<string>, token: string)
    requires NormalFence(LastTokens(all)) && token !in LastTokens(all)
    ensures Complete(LastTokens(all), token) == LastTokens(all + [token])
  {
    CompleteStep(LastTokens(all), token);
  }

  // The fence is a queue: after any completions it is the last 128 of the old fence followed
  // by the new tokens in order of arrival.
  lemma {:induction false} FenceIsAQueue(fence: seq<string>, tokens: seq<string>)
    requires NormalFence(fence)
    requires forall t :: t in tokens ==> Texts.NormalizeRecycleToken(t) == Some(t)
    ensures NormalFence(CompleteAll(fence, tokens))
    ensures CompleteAll(fence, tokens) == LastTokens(fence + Arrivals(fence, tokens))
  {
    if tokens == [] {
      assert fence + [] == fence;
    } else {
      var front, last := tokens[..|tokens| - 1], tokens[|tokens| - 1];
      FenceIsAQueue(fence, front);
      var before, all := CompleteAll(fence, front), fence + Arrivals(fence, front);
      assert last in tokens;
      CompleteKeepsNormal(before, last);
      if last in before {
        CompleteStep(before, last);
        assert Arrivals(fence, tokens) == Arrivals(fence, front);
      } else {
        QueueStep(all, last);
        assert fence + Arrivals(fence, tokens) == all + [last];
      }
    }
  }

  lemma StillFenced(start: seq<string>, later: seq<string>, token: string)
    requires NormalFence(start) && start != [] && start[|start| - 1] == token
    requires forall t :: t in later ==> Texts.NormalizeRecycleToken(t) == Some(t)
    ensures |Arrivals(start, later)| < MAX_COMPLETED_RECYCLE_TOKENS ==> token in CompleteAll(start, later)
  {
    hide Arrivals, CompleteAll, NormalFence, Texts.NormalizeRecycleToken;
    FenceIsAQueue(start, later);
    var arrived := Arrivals(start, later);
    var all := start + arrived;
    assert all[|start| - 1] == token;
    if |arrived| < MAX_COMPLETED_RECYCLE_TOKENS {
      var dropped := |all| - |LastTokens(all)|;
      assert LastTokens(all)[|start| - 1 - dropped] == token;
    }
  }

  lemma {:induction false} NotYetRearrived(start: seq<string>, later: seq<string>, token: string)
    requires NormalFence(start) && start != [] && start[|start| - 1] == token
    requires forall t :: t in later ==> Texts.NormalizeRecycleToken(t) == Some(t)
    ensures |Arrivals(start, later)| < MAX_COMPLETED_RECYCLE_TOKENS ==> token in CompleteAll(start, later)
    ensures |Arrivals(start, later)| <= MAX_COMPLETED_RECYCLE_TOKENS ==> token !in Arrivals(start, later)
  {
    StillFenced(start, later, token);
    if later != [] {
      NotYetRearrived(start, later[..|later| - 1], token);
    }
  }

  // A token completed for the first time is fenced until 128 newer tokens have arrived,
  // and the 128th pushes it out.
  lemma CompletedTokenSurvives(fence: seq<string>, token: string, later: seq<string>)
    requires NormalFence(fence) && token !in fence
    requires Texts.NormalizeRecycleToken(token) == Some(token)
    requires forall t :: t in later ==> Texts.NormalizeRecycleToken(t) == Some(t)
    requires |Arrivals(Complete(fence, token), later)| <= MAX_COMPLETED_RECYCLE_TOKENS
    ensures token in CompleteAll(Complete(fence, token), later) <==>
            |Arrivals(Complete(fence, token), later)| < MAX_COMPLETED_RECYCLE_TOKENS
  {
    CompleteStep(fence, token);
    CompleteKeepsNormal(fence, token);
    var start := Complete(fence, token);
    FenceIsAQueue(start, later);
    NotYetRearrived(start, later, token);
    var arrived := Arrivals(start, later);
    if |arrived| == MAX_COMPLETED_RECYCLE_TOKENS {
      assert LastTokens(start + arrived) == arrived;
    }
  }
}
