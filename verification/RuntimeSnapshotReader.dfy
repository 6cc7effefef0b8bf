// Which documents the strict reader accepts: those that say a canonical snapshot, field by field.
// Nothing that is present is passed over.
module RuntimeSnapshotReader {
  import opened Wrappers
  import opened RuntimeSnapshot
  import Texts

  // Texts are taken without outer white space; one that is nothing else says nothing.
  predicate SaysText(v: Json, t: Option<Text>) {
    match v
    case Undefined => t.None?
    case Str(Stamp(_)) => t == Some(v.text)
    case Str(Plain(s)) => Texts.Trim(s) != "" && t == Some(Plain(Texts.Trim(s)))
    case _ => false
  }

  predicate SaysDate(v: Json, t: Option<Text>) {
    match v
    case Undefined => t.None?
    case Str(Stamp(ms)) => -MAX_DATE_MS <= ms <= MAX_DATE_MS && t == Some(v.text)
    case _ => false
  }

  predicate SaysNumber(v: Json, n: Option<int>) {
    match v
    case Undefined => n.None?
    case Whole(k) => n == Some(k)
    case _ => false
  }

  predicate SaysGuid(v: Json, g: Option<string>) {
    match v
    case Undefined => g.None?
    case Str(Plain(s)) => g.Some? && Texts.NormalizeGuid(s) == g
    case _ => false
  }

  // The tokens are those of the list, in normal form.
  ghost predicate SaysTokens(v: Json, tokens: seq<string>) {
    match v
    case Undefined => tokens == []
    case Arr(items) =>
      exists all: seq<string> :: |all| == |items| && (forall i :: 0 <= i < |all| ==> SaysToken(items[i], all[i]))
                                 && tokens == LastTokens(Dedupe(all))
    case _ => false
  }

  predicate SaysToken(v: Json, token: string) {
    v.Str? && v.text.Plain? && Texts.NormalizeRecycleToken(v.text.chars) == Some(token)
  }

  // The document says the snapshot. The text of the cutoff may be left out, where a date can hold it,
  // and so may a latch that is not set.
  ghost predicate Says(d: Document, s: Snapshot) {
    && s.cutoff.Some? && d.cutoff == Whole(s.cutoff.value)
    && (if d.cutoffUtc == Undefined then HasUtc(s.cutoff.value) && s.cutoffUtc == Some(Stamp(1000 * s.cutoff.value))
        else SaysDate(d.cutoffUtc, s.cutoffUtc))
    && SaysText(d.reason, s.reason) && SaysText(d.commandType, s.commandType) && SaysText(d.commandId, s.commandId)
    && SaysDate(d.updatedAt, s.updatedAt) && SaysDate(d.firstAdmitted, s.firstAdmitted)
    && (if d.recoveryRequired == Undefined then !s.recoveryRequired else d.recoveryRequired == Bool(s.recoveryRequired))
    && SaysNumber(d.readyNotBefore, s.readyNotBefore)
    && SaysGuid(d.viewerRequest, s.viewerRequest) && SaysGuid(d.viewerSession, s.viewerSession)
    && SaysTokens(d.completedTokens, s.completedTokens)
  }

  // Exactly these documents are read, each as the canonical snapshot that it says.
  lemma ReadExactlyWhen(d: Document, s: Snapshot)
    ensures Parse(d) == Some(s) <==> Canonical(s) && Says(d, s)
  {
    if Parse(d) == Some(s) {
      ReaderIsStrict(d);
      ReadSays(d, s);
    }
    if Canonical(s) && Says(d, s) {
      SaidIsRead(d, s);
    }
  }

  lemma ReadSays(d: Document, s: Snapshot)
    requires Parse(d) == Some(s)
    ensures Says(d, s)
  {
    hide Texts.Trim, Texts.NormalizeGuid, Texts.NormalizeRecycleToken, FenceOf, SaysTokens;
    FenceSays(d.completedTokens);
  }

  lemma SaidIsRead(d: Document, s: Snapshot)
    requires Canonical(s) && Says(d, s)
    ensures Parse(d) == Some(s)
  {
    hide Texts.Trim, Texts.NormalizeGuid, Texts.NormalizeRecycleToken, FenceOf, SaysTokens, NormalFence, FenceAcceptable;
    SaidFence(d.completedTokens, s.completedTokens);
  }

  // ---- the fence ----

  lemma {:induction false} TokensSay(items: seq<Json>)
    requires forall i :: 0 <= i < |items| ==> TokenOf(items[i]).Some?
    ensures |NormalTokens(items)| == |items|
    ensures forall i :: 0 <= i < |items| ==> SaysToken(items[i], NormalTokens(items)[i])
  {
    hide Texts.NormalizeRecycleToken;
    if items != [] {
      var n := |items| - 1;
      LastIsRead(items);
      TokensSay(items[..n]);
      hide NormalTokens;
      assert forall i :: 0 <= i < n ==> items[i] == items[..n][i];
    }
  }

  lemma LastIsRead(items: seq<Json>)
    requires items != [] && TokenOf(items[|items| - 1]).Some?
    ensures var n := |items| - 1;
            NormalTokens(items) == NormalTokens(items[..n]) + [TokenOf(items[n]).value]
    ensures SaysToken(items[|items| - 1], TokenOf(items[|items| - 1]).value)
  {
    hide Texts.NormalizeRecycleToken;
  }

  lemma FenceSays(v: Json)
    requires FenceAcceptable(v)
    ensures SaysTokens(v, FenceOf(v))
  {
    hide Texts.NormalizeRecycleToken, Dedupe;
    if v.Arr? {
      TokensSay(v.items);
    }
  }

  lemma SaidFence(v: Json, tokens: seq<string>)
    requires SaysTokens(v, tokens)
    ensures FenceAcceptable(v) && FenceOf(v) == tokens
  {
    hide Texts.NormalizeRecycleToken, Dedupe;
    if v.Arr? {
      var all: seq<string> :| |all| == |v.items| && (forall i :: 0 <= i < |all| ==> SaysToken(v.items[i], all[i]))
                              && tokens == LastTokens(Dedupe(all));
      TokensSay(v.items);
      assert NormalTokens(v.items) == all;
    }
  }
}
