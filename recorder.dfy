/** The recorder classifier: which kind of device made the file, read from
    vendor tags. */
module Recorder {
  import opened Wrappers
  import opened Probe

  datatype Kind = Android | GoPro | Unknown

  /** The text the normaliser stores for a kind. */
  function Label(k: Kind): string {
    match k
    case Android => "Android"
    case GoPro => "GoPro"
    case Unknown => "Unknown"
  }

  const AndroidVersionTag := "com.android.version"
  const HandlerNameTag := "handler_name"
  const GoProMarker := "GoPro"

  /** t occurs in s starting at offset i. */
  predicate OccursAt(t: string, s: string, i: int) {
    0 <= i <= |s| - |t| && s[i..i + |t|] == t
  }

  /** t occurs in s as a contiguous piece. */
  ghost predicate OccursIn(t: string, s: string) {
    exists i :: OccursAt(t, s, i)
  }

  /** When s does not start with t, t occurs in s exactly when it occurs in s
      without its first character. */
  lemma {:induction false} OccursPastHead(t: string, s: string)
    requires |s| >= |t| && s[..|t|] != t
    ensures OccursIn(t, s) <==> OccursIn(t, s[1..])
  {
    if OccursIn(t, s) {
      var i :| OccursAt(t, s, i);
      assert i != 0;
      assert s[1..][i - 1..i - 1 + |t|] == s[i..i + |t|];
      assert OccursAt(t, s[1..], i - 1);
    }
    if OccursIn(t, s[1..]) {
      var i :| OccursAt(t, s[1..], i);
      assert s[i + 1..i + 1 + |t|] == s[1..][i..i + |t|];
      assert OccursAt(t, s, i + 1);
    }
  }

  /** JavaScript's `s.includes(t)`. */
  function Includes(s: string, t: string): (b: bool)
    ensures b <==> OccursIn(t, s)
    decreases |s|
  {
    if |s| < |t| then false
    else if s[..|t|] == t then assert OccursAt(t, s, 0); true
    else OccursPastHead(t, s); Includes(s[1..], t)
  }

  /** getRecorderType: a truthy `com.android.version` container tag makes it
      Android whatever the streams hold; otherwise the first stream's
      `handler_name` decides between GoPro and Unknown. Reading a key of
      missing container tags, or calling `includes` on a missing handler
      name, throws. */
  function Classify(doc: Document): (r: Result<Kind, Failure>)
    ensures r == Failure(NoContainerTags) <==> ContainerTags(doc).None?
    ensures r == Success(Android) <==>
              ContainerTags(doc).Some? && Truthy(ContainerTag(doc, AndroidVersionTag))
    ensures r == Failure(NoHandlerName) <==>
              ContainerTags(doc).Some? && !Truthy(ContainerTag(doc, AndroidVersionTag))
              && FirstStreamTag(doc, HandlerNameTag).None?
    ensures r == Success(GoPro) <==>
              ContainerTags(doc).Some? && !Truthy(ContainerTag(doc, AndroidVersionTag))
              && FirstStreamTag(doc, HandlerNameTag).Some?
              && OccursIn(GoProMarker, FirstStreamTag(doc, HandlerNameTag).value)
    ensures r == Success(Unknown) <==>
              ContainerTags(doc).Some? && !Truthy(ContainerTag(doc, AndroidVersionTag))
              && FirstStreamTag(doc, HandlerNameTag).Some?
              && !OccursIn(GoProMarker, FirstStreamTag(doc, HandlerNameTag).value)
  {
    if ContainerTags(doc).None? then Failure(NoContainerTags)
    else if Truthy(ContainerTag(doc, AndroidVersionTag)) then Success(Android)
    else
      var handler := FirstStreamTag(doc, HandlerNameTag);
      if handler.None? then Failure(NoHandlerName)
      else if Includes(handler.value, GoProMarker) then Success(GoPro)
      else Success(Unknown)
  }
}
