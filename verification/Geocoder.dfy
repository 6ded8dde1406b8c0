/** The keyless geocoder (keylessGeocoder.js): which candidate answers a name, and a bounded memo
    that must not change any answer. */
module Geocoder {
  import opened Js

  const PHOTON_CACHE_MAX := 64
  const FOUND_TTL_MS := 300000.0
  const MISS_TTL_MS := 30000.0

  datatype Feature = Feature(isPoint: bool, lng: Option<real>, lat: Option<real>, name: string)
  datatype Place = Place(lat: real, lng: real, name: string)
  datatype Answer = Answer(place: Option<Place>, answered: bool)

  /** The outside world: the text a request is sent as, what the provider answers to it (None when
      it does not), and how a name is reduced to comparable form. */
  datatype Service = Service(url: (string, string) -> string, provider: string -> Option<seq<Feature>>,
                             normalize: string -> string, head: string -> string)

  // ---- choosing a candidate ------------------------------------------------

  function NormalizePhotonFeature(f: Feature): Option<Place> {
    if !f.isPoint || f.lng.None? || f.lat.None? || Abs(f.lat.value) > 90.0 || Abs(f.lng.value) > 180.0 then None
    else Some(Place(f.lat.value, f.lng.value, f.name))
  }

  /** The name is the target, or the target followed by more words. */
  predicate Leads(name: string, target: string) {
    name == target || target + " " <= name
  }

  predicate IncludesAt(name: string, target: string, i: nat) {
    i + |target| <= |name| && name[i..i + |target|] == target
  }

  predicate Includes(name: string, target: string) {
    exists i: nat :: i <= |name| && IncludesAt(name, target, i)
  }

  predicate Matches(name: string, target: string, loose: bool) {
    if loose then Includes(name, target) else Leads(name, target)
  }

  /** The first name that matches. */
  function FirstMatch(names: seq<string>, target: string, loose: bool): (k: Option<nat>)
    ensures k.Some? ==> k.value < |names| && Matches(names[k.value], target, loose) && forall j :: 0 <= j < k.value ==> !Matches(names[j], target, loose)
    ensures k.None? ==> forall j :: 0 <= j < |names| ==> !Matches(names[j], target, loose)
  {
    if names == [] then None
    else if Matches(names[0], target, loose) then Some(0)
    else
      var rest := FirstMatch(names[1..], target, loose);
      assert forall j :: 0 < j < |names| ==> names[j] == names[1..][j - 1];
      if rest.Some? then Some(rest.value + 1) else None
  }

  function Names(service: Service, features: seq<Feature>): seq<string> {
    seq(|features|, i requires 0 <= i < |features| => service.normalize(features[i].name))
  }

  function Select(service: Service, features: seq<Feature>, target: string, allowContains: bool): Option<Feature> {
    if target == "" then None else
    var names := Names(service, features);
    var leading := FirstMatch(names, target, false);
    if leading.Some? then Some(features[leading.value])
    else if !allowContains then None
    else
      var containing := FirstMatch(names, target, true);
      if containing.Some? then Some(features[containing.value]) else None
  }

  /** Candidate k is the first whose name matches. */
  predicate IsFirst(service: Service, features: seq<Feature>, target: string, loose: bool, k: nat) {
    var names := Names(service, features);
    k < |features| && Matches(names[k], target, loose) && forall j :: 0 <= j < k ==> !Matches(names[j], target, loose)
  }

  predicate AnyMatch(service: Service, features: seq<Feature>, target: string, loose: bool) {
    exists k: nat :: k < |features| && Matches(service.normalize(features[k].name), target, loose)
  }

  lemma FindsAny(service: Service, features: seq<Feature>, target: string, loose: bool)
    ensures AnyMatch(service, features, target, loose) <==> FirstMatch(Names(service, features), target, loose).Some?
  {
    hide Matches;
    var names := Names(service, features);
    var k := FirstMatch(names, target, loose);
    assert forall j :: 0 <= j < |features| ==> names[j] == service.normalize(features[j].name);
  }

  /** A candidate is chosen when one leads with the name, and then it is the first that does; only
      when none does may one that merely contains it be chosen, and again the first. */
  lemma SelectsFirstBest(service: Service, features: seq<Feature>, target: string, allowContains: bool)
    requires target != ""
    ensures var chosen, loose := Select(service, features, target, allowContains), !AnyMatch(service, features, target, false);
      && (chosen.Some? <==> AnyMatch(service, features, target, loose) && (loose ==> allowContains))
      && (chosen.Some? ==> exists k: nat :: IsFirst(service, features, target, loose, k) && chosen == Some(features[k]))
  {
    var names := Names(service, features);
    FindsAny(service, features, target, false);
    FindsAny(service, features, target, true);
    hide Matches, AnyMatch;
    var leading, containing := FirstMatch(names, target, false), FirstMatch(names, target, true);
    if leading.Some? {
      assert IsFirst(service, features, target, false, leading.value);
    } else if containing.Some? {
      assert IsFirst(service, features, target, true, containing.value);
    }
  }

  // ---- an answer without a cache -------------------------------------------

  /** One request: any malformed candidate counts as no reply. */
  function Ask(service: Service, query: string, bias: string): Option<seq<Feature>> {
    var reply := service.provider(service.url(query, bias));
    if reply.Some? && forall i :: 0 <= i < |reply.value| ==> NormalizePhotonFeature(reply.value[i]).Some? then reply else None
  }

  function Anywhere(service: Service, query: string, features: seq<Feature>): Option<Feature> {
    var chosen := Select(service, features, service.normalize(service.head(query)), true);
    if chosen.Some? then chosen else if |features| > 0 then Some(features[0]) else None
  }

  function Biased(service: Service, query: string, bias: string): Option<Feature> {
    if bias == "" then None else
    var near := Ask(service, query, bias);
    if near.None? then None else Select(service, near.value, service.normalize(query), false)
  }

  /** What the lookup answers when nothing is remembered. The query is trimmed already. */
  function Uncached(service: Service, query: string, bias: string): Answer {
    var near := Biased(service, query, bias);
    var nearReplied := bias == "" || Ask(service, query, bias).Some?;
    if near.Some? then Answer(NormalizePhotonFeature(near.value), true)
    else
      var far := Ask(service, query, "");
      var feature := if far.None? then None else Anywhere(service, query, far.value);
      var place := if feature.None? then None else NormalizePhotonFeature(feature.value);
      Answer(place, place.Some? || (nearReplied && far.Some?))
  }

  lemma SelectedIsIn(service: Service, features: seq<Feature>, target: string, allowContains: bool)
    ensures var chosen := Select(service, features, target, allowContains);
      chosen.Some? ==> chosen.value in features
  {
  }

  /** A place found near the view leads with the very name asked for; a null place is an answer
      only when every request made came back; and a reply with candidates always finds a place. */
  lemma AnswerMeans(service: Service, query: string, bias: string)
    ensures var a, near, far := Uncached(service, query, bias), Biased(service, query, bias), Ask(service, query, "");
      && (near.Some? ==> a.place.Some? && Leads(service.normalize(near.value.name), service.normalize(query)))
      && (a.place.None? ==> near.None? && (a.answered <==> far.Some? && (bias == "" || Ask(service, query, bias).Some?)))
      && (near.None? ==> (a.place.Some? <==> far.Some? && |far.value| > 0))
  {
    var target := service.normalize(query);
    if bias != "" && Ask(service, query, bias).Some? {
      var features := Ask(service, query, bias).value;
      SelectedIsIn(service, features, target, false);
      if target != "" {
        SelectsFirstBest(service, features, target, false);
      }
    }
    var far := Ask(service, query, "");
    if far.Some? {
      SelectedIsIn(service, far.value, service.normalize(service.head(query)), true);
    }
    hide Leads, Select, NormalizePhotonFeature;
  }

  /** A candidate is a place when it is a point with both coordinates on the globe: there, and of that
      name. */
  lemma PlaceExactly(f: Feature)
    ensures var place := NormalizePhotonFeature(f);
      && (place.Some? <==> f.isPoint && f.lat.Some? && f.lng.Some? && -90.0 <= f.lat.value <= 90.0 && -180.0 <= f.lng.value <= 180.0)
      && (place.Some? ==> Some(place.value.lat) == f.lat && Some(place.value.lng) == f.lng && place.value.name == f.name)
  {
  }

  /** A name leads with a target when it is the target, or goes on behind it with a space. */
  lemma LeadsExactly(name: string, target: string)
    ensures Matches(name, target, false) <==> name == target || exists rest :: name == target + " " + rest
  {
    var n := |target| + 1;
    if Leads(name, target) && name != target {
      assert name[..n] == target + " " && name == name[..n] + name[n..];
    }
    if exists rest :: name == target + " " + rest {
      var rest :| name == target + " " + rest;
      assert name[..n] == target + " ";
    }
  }

  /** It contains it when the target stands somewhere in it. */
  lemma ContainsExactly(name: string, target: string)
    ensures Matches(name, target, true) <==> exists front, rest :: name == front + target + rest
  {
    if Includes(name, target) {
      var i: nat :| i <= |name| && IncludesAt(name, target, i);
      TakenApart(name, target, i);
    }
    if exists front, rest :: name == front + target + rest {
      var front, rest :| name == front + target + rest;
      assert name[|front|..|front| + |target|] == target;
      assert IncludesAt(name, target, |front|);
    }
  }

  lemma TakenApart(name: string, target: string, i: nat)
    requires IncludesAt(name, target, i)
    ensures name == name[..i] + target + name[i + |target|..]
  {
  }

  /** A request came back exactly when the provider answered it and every candidate of the answer is a
      place; then what came back is that answer. */
  lemma CameBackExactly(service: Service, query: string, bias: string)
    ensures var reply, asked := service.provider(service.url(query, bias)), Ask(service, query, bias);
      && (asked.Some? <==> reply.Some? && forall i :: 0 <= i < |reply.value| ==> NormalizePhotonFeature(reply.value[i]).Some?)
      && (asked.Some? ==> asked == reply)
  {
  }

  /** Feature k answers a name anywhere: it is the first whose name leads with it; or none leads, and
      it is the first whose name contains it; or none does either (or nothing of the name is left to
      compare), and it is the first there is. */
  ghost predicate AnswersAnywhere(service: Service, features: seq<Feature>, target: string, k: nat) {
    && k < |features|
    && if target != "" && AnyMatch(service, features, target, false) then IsFirst(service, features, target, false, k)
       else if target != "" && AnyMatch(service, features, target, true) then IsFirst(service, features, target, true, k)
       else k == 0
  }

  /** What a lookup answers when no remembered place does, when every request comes back. In view, the
      first candidate that leads with the whole name asked for; otherwise what answers, anywhere, the
      part of the name before its region. */
  lemma AnswersByName(service: Service, query: string, bias: string, near: seq<Feature>, far: seq<Feature>)
    requires bias != "" ==> Ask(service, query, bias) == Some(near)
    requires Ask(service, query, "") == Some(far)
    ensures var a, name, head := Uncached(service, query, bias), service.normalize(query), service.normalize(service.head(query));
      && a.answered
      && (if bias != "" && name != "" && AnyMatch(service, near, name, false) then
            exists k: nat :: IsFirst(service, near, name, false, k) && a.place == NormalizePhotonFeature(near[k])
          else if far == [] then a.place.None?
          else exists k: nat :: AnswersAnywhere(service, far, head, k) && a.place == NormalizePhotonFeature(far[k]))
  {
    hide Matches, AnyMatch, NormalizePhotonFeature;
    var name, head := service.normalize(query), service.normalize(service.head(query));
    if bias != "" && name != "" {
      SelectsFirstBest(service, near, name, false);
    }
    if head != "" {
      SelectsFirstBest(service, far, head, true);
    }
    AnywhereAnswers(service, query, far);
    SelectedIsIn(service, near, name, false);
  }

  lemma AnywhereAnswers(service: Service, query: string, far: seq<Feature>)
    ensures var chosen, head := Anywhere(service, query, far), service.normalize(service.head(query));
      && (chosen.None? <==> far == [])
      && (chosen.Some? ==> exists k: nat :: AnswersAnywhere(service, far, head, k) && chosen == Some(far[k]))
  {
    hide Matches, AnyMatch, Names;
    var chosen, head := Anywhere(service, query, far), service.normalize(service.head(query));
    if head != "" {
      SelectsFirstBest(service, far, head, true);
      var loose := !AnyMatch(service, far, head, false);
      if Select(service, far, head, true).Some? {
        var k: nat :| IsFirst(service, far, head, loose, k) && chosen == Some(far[k]);
        assert AnswersAnywhere(service, far, head, k);
      } else if far != [] {
        assert AnswersAnywhere(service, far, head, 0);
      }
    } else if far != [] {
      assert AnswersAnywhere(service, far, head, 0);
    }
  }

  // ---- the memo ------------------------------------------------------------

  /** The memo in insertion order. */
  datatype Entry = Entry(key: string, place: Option<Place>, expires: real)

  function MemoKey(query: string, bias: string): string {
    bias + "\n" + query
  }

  function Find(cache: seq<Entry>, key: string): (k: Option<nat>)
    ensures k.Some? ==> k.value < |cache| && cache[k.value].key == key
    ensures k.None? ==> forall i :: 0 <= i < |cache| ==> cache[i].key != key
  {
    if cache == [] then None
    else if cache[0].key == key then Some(0)
    else
      var rest := Find(cache[1..], key);
      assert forall j :: 0 < j < |cache| ==> cache[j] == cache[1..][j - 1];
      if rest.Some? then Some(rest.value + 1) else None
  }

  function Without(cache: seq<Entry>, key: string): seq<Entry> {
    var k := Find(cache, key);
    if k.None? then cache else cache[..k.value] + cache[k.value + 1..]
  }

  /** Setting a key that is there keeps its place; a new one goes last. */
  function With(cache: seq<Entry>, e: Entry): seq<Entry> {
    var k := Find(cache, e.key);
    if k.None? then cache + [e] else cache[k.value := e]
  }

  function Trimmed(cache: seq<Entry>): seq<Entry> {
    if |cache| > PHOTON_CACHE_MAX then cache[|cache| - PHOTON_CACHE_MAX..] else cache
  }

  function Remembered(cache: seq<Entry>, key: string, now: real): Option<Answer> {
    var k := Find(cache, key);
    if k.Some? && cache[k.value].expires > now then Some(Answer(cache[k.value].place, true)) else None
  }

  /** The lookup's first half: a live entry answers, a dead one is forgotten. */
  function Looked(cache: seq<Entry>, query: string, bias: string, now: real): (seq<Entry>, Option<Answer>) {
    var hit := Remembered(cache, MemoKey(query, bias), now);
    if hit.Some? then (cache, hit) else (Without(cache, MemoKey(query, bias)), None)
  }

  /** Its second half, after the requests: an answer is remembered, silence is not. */
  function Finished(service: Service, cache: seq<Entry>, query: string, bias: string, now: real): seq<Entry> {
    var a := Uncached(service, query, bias);
    if !a.answered then cache
    else Trimmed(With(cache, Entry(MemoKey(query, bias), a.place, now + if a.place.Some? then FOUND_TTL_MS else MISS_TTL_MS)))
  }

  // ---- keys ----------------------------------------------------------------

  /** How long the first line of a text is. */
  function FirstLine(s: string): nat {
    if s == "" || s[0] == '\n' then 0 else 1 + FirstLine(s[1..])
  }

  lemma {:induction false} LineEnds(a: string, x: string)
    requires '\n' !in a
    ensures FirstLine(a + "\n" + x) == |a|
  {
    if a != "" {
      assert (a + "\n" + x)[0] == a[0] && a[0] in a;
      assert (a + "\n" + x)[1..] == a[1..] + "\n" + x;
      LineEnds(a[1..], x);
    }
  }

  /** Different requests have different keys as long as no bias has a line break. */
  lemma KeysApart(query: string, bias: string, query': string, bias': string)
    requires '\n' !in bias && '\n' !in bias'
    ensures MemoKey(query, bias) == MemoKey(query', bias') <==> query == query' && bias == bias'
  {
    if MemoKey(query, bias) == MemoKey(query', bias') {
      LineEnds(bias, query);
      LineEnds(bias', query');
      var key := MemoKey(query, bias);
      assert bias == key[..|bias|] && bias' == key[..|bias|];
      assert query == key[|bias| + 1..] && query' == key[|bias| + 1..];
    }
  }

  /** Every line break in a request is a place where another one with the same key divides. */
  lemma KeysMeet(a: string, b: string, c: string)
    ensures MemoKey(b + "\n" + c, a) == MemoKey(c, a + "\n" + b)
  {
    assert a + "\n" + (b + "\n" + c) == a + "\n" + b + "\n" + c;
  }

  lemma {:induction false} HasLine(s: string)
    requires '\n' in s
    ensures FirstLine(s) < |s| && s[FirstLine(s)] == '\n'
    ensures s == s[..FirstLine(s)] + "\n" + s[FirstLine(s) + 1..]
  {
    if s[0] != '\n' {
      HasLine(s[1..]);
    }
  }

  lemma {:induction false} KeySplits(query: string, bias: string, query': string, bias': string)
    requires '\n' !in query && '\n' !in bias && MemoKey(query, bias) == MemoKey(query', bias')
    ensures query == query' && bias == bias'
  {
    var key := MemoKey(query, bias);
    assert key[|bias|] == '\n' && key[|bias'|] == '\n';
    assert forall i :: 0 <= i < |bias| ==> key[i] == bias[i] && bias[i] in bias;
    assert forall i :: |bias| < i < |key| ==> key[i] == query[i - |bias| - 1] && query[i - |bias| - 1] in query;
    assert |bias'| == |bias|;
    assert bias == key[..|bias|] && bias' == key[..|bias|];
    assert query == key[|bias| + 1..] && query' == key[|bias| + 1..];
  }

  /** A request has its key to itself if and only if neither its query nor its bias has a line
      break. */
  lemma KeyIsOwnExactly(query: string, bias: string)
    ensures (forall query', bias' :: MemoKey(query', bias') == MemoKey(query, bias) ==> query' == query && bias' == bias)
       <==> '\n' !in query && '\n' !in bias
  {
    if '\n' in bias {
      HasLine(bias);
      var n := FirstLine(bias);
      KeysMeet(bias[..n], bias[n + 1..], query);
      assert MemoKey(bias[n + 1..] + "\n" + query, bias[..n]) == MemoKey(query, bias);
    } else if '\n' in query {
      HasLine(query);
      var n := FirstLine(query);
      KeysMeet(bias, query[..n], query[n + 1..]);
      assert MemoKey(query[n + 1..], bias + "\n" + query[..n]) == MemoKey(query, bias);
    } else {
      forall query', bias' | MemoKey(query', bias') == MemoKey(query, bias)
        ensures query' == query && bias' == bias
      {
        KeySplits(query, bias, query', bias');
      }
    }
  }

  // ---- one entry for a key -------------------------------------------------

  /** The memo is a map: no key has two entries. */
  predicate IsMap(cache: seq<Entry>) {
    forall i, j :: 0 <= i < j < |cache| ==> cache[i].key != cache[j].key
  }

  lemma WithStaysMap(cache: seq<Entry>, e: Entry)
    requires IsMap(cache)
    ensures IsMap(With(cache, e)) && IsMap(Trimmed(With(cache, e)))
  {
    hide Find;
  }

  lemma WithoutStaysMap(cache: seq<Entry>, key: string)
    requires IsMap(cache)
    ensures IsMap(Without(cache, key))
    ensures forall i :: 0 <= i < |Without(cache, key)| ==> Without(cache, key)[i].key != key
  {
    hide Find;
  }

  lemma WithoutKeeps(cache: seq<Entry>, key: string, i: nat)
    requires i < |cache| && cache[i].key != key
    ensures cache[i] in Without(cache, key)
  {
    var k, rest := Find(cache, key), Without(cache, key);
    if k.Some? {
      assert cache[i] == if i < k.value then rest[i] else rest[i - 1];
    }
    hide Find;
  }

  // ---- runs ----------------------------------------------------------------

  datatype Event =
    | Looks(query: string, bias: string, now: real)
    | Finishes(query: string, bias: string, now: real)

  /** The memo after a history in which lookups overlap in any way, some of them cancelled: each is
      a first half and, later or never, a second half. */
  function After(service: Service, run: seq<Event>, n: nat): seq<Entry>
    requires n <= |run|
  {
    if n == 0 then [] else
    var before := After(service, run, n - 1);
    match run[n - 1]
    case Looks(query, bias, now) => Looked(before, query, bias, now).0
    case Finishes(query, bias, now) => Finished(service, before, query, bias, now)
  }

  predicate OneLineBiases(run: seq<Event>) {
    forall k :: 0 <= k < |run| ==> '\n' !in run[k].bias
  }

  /** The entry is what some request with its key would be answered without the memo; with one-line
      biases only, a request whose bias has no line break. */
  ghost predicate Sound(service: Service, e: Entry, oneLine: bool) {
    exists query, bias :: (oneLine ==> '\n' !in bias) && e.key == MemoKey(query, bias) && Uncached(service, query, bias) == Answer(e.place, true)
  }

  ghost predicate CacheOk(service: Service, cache: seq<Entry>, oneLine: bool) {
    && |cache| <= PHOTON_CACHE_MAX
    && IsMap(cache)
    && (forall i :: 0 <= i < |cache| ==> Sound(service, cache[i], oneLine))
  }

  lemma WithoutOk(service: Service, cache: seq<Entry>, key: string, oneLine: bool)
    requires CacheOk(service, cache, oneLine)
    ensures CacheOk(service, Without(cache, key), oneLine)
  {
    hide Sound;
  }

  lemma WithOk(service: Service, cache: seq<Entry>, e: Entry, oneLine: bool)
    requires CacheOk(service, cache, oneLine) && Sound(service, e, oneLine)
    ensures CacheOk(service, Trimmed(With(cache, e)), oneLine)
  {
    hide Sound, IsMap;
    WithStaysMap(cache, e);
    WithIsOldOrNew(cache, e);
  }

  /** An entry of the grown memo is the new one or an old one, and it grew by one at most. */
  lemma WithIsOldOrNew(cache: seq<Entry>, e: Entry)
    ensures var grown := With(cache, e); |grown| <= |cache| + 1 && forall i :: 0 <= i < |grown| ==> grown[i] == e || grown[i] in cache
  {
    hide Find;
  }

  lemma AnsweredIsSound(service: Service, query: string, bias: string, expires: real, oneLine: bool)
    requires (oneLine ==> '\n' !in bias) && Uncached(service, query, bias).answered
    ensures Sound(service, Entry(MemoKey(query, bias), Uncached(service, query, bias).place, expires), oneLine)
  {
    hide Uncached;
  }

  lemma FinishedOk(service: Service, cache: seq<Entry>, query: string, bias: string, now: real, oneLine: bool)
    requires CacheOk(service, cache, oneLine) && (oneLine ==> '\n' !in bias)
    ensures CacheOk(service, Finished(service, cache, query, bias, now), oneLine)
  {
    hide Uncached, CacheOk, Trimmed, With, MemoKey, Sound;
    var a := Uncached(service, query, bias);
    if a.answered {
      var expires := now + if a.place.Some? then FOUND_TTL_MS else MISS_TTL_MS;
      AnsweredIsSound(service, query, bias, expires, oneLine);
      WithOk(service, cache, Entry(MemoKey(query, bias), a.place, expires), oneLine);
    }
  }

  lemma {:induction false} AlwaysOk(service: Service, run: seq<Event>, n: nat, oneLine: bool)
    requires n <= |run| && (oneLine ==> OneLineBiases(run))
    ensures CacheOk(service, After(service, run, n), oneLine)
  {
    if n > 0 {
      AlwaysOk(service, run, n - 1, oneLine);
      hide CacheOk;
      match run[n - 1] {
        case Looks(query, bias, now) =>
          WithoutOk(service, After(service, run, n - 1), MemoKey(query, bias), oneLine);
        case Finishes(query, bias, now) =>
          FinishedOk(service, After(service, run, n - 1), query, bias, now, oneLine);
      }
    }
  }

  /** Some request with the same key is answered so without the memo. */
  ghost predicate AnswersKey(service: Service, query: string, bias: string, a: Answer) {
    exists query', bias' :: MemoKey(query', bias') == MemoKey(query, bias) && Uncached(service, query', bias') == a
  }

  lemma LookedOk(service: Service, cache: seq<Entry>, query: string, bias: string, now: real, oneLine: bool)
    requires CacheOk(service, cache, oneLine)
    ensures CacheOk(service, Looked(cache, query, bias, now).0, oneLine)
    ensures var hit := Looked(cache, query, bias, now).1;
      hit.Some? ==>
        && AnswersKey(service, query, bias, hit.value)
        && ('\n' !in bias && (oneLine || '\n' !in query) ==> hit.value == Uncached(service, query, bias))
  {
    hide Uncached;
    WithoutOk(service, cache, MemoKey(query, bias), oneLine);
    var k := Find(cache, MemoKey(query, bias));
    if k.Some? {
      var q, b :| (oneLine ==> '\n' !in b) && cache[k.value].key == MemoKey(q, b) && Uncached(service, q, b) == Answer(cache[k.value].place, true);
      if '\n' !in bias && oneLine {
        KeysApart(query, bias, q, b);
      } else if '\n' !in bias && '\n' !in query {
        KeySplits(query, bias, q, b);
      }
    }
  }

  /** The memo is transparent: against a provider that always answers a request the same way, any
      remembered answer, after any history of overlapping lookups, expiries, evictions and
      cancellations, is one that a lookup without a memo gives to a request with the same key. It
      is the answer to this very request when no bias has a line break, or when this request has
      none at all. The memo never holds more than 64. */
  lemma MemoTransparent(service: Service, run: seq<Event>, n: nat, query: string, bias: string, now: real)
    requires n <= |run|
    ensures var hit := Looked(After(service, run, n), query, bias, now).1;
      hit.Some? ==>
        && AnswersKey(service, query, bias, hit.value)
        && ('\n' !in bias && (OneLineBiases(run) || '\n' !in query) ==> hit.value == Uncached(service, query, bias))
    ensures |After(service, run, n)| <= 64
  {
    var oneLine := OneLineBiases(run);
    AlwaysOk(service, run, n, oneLine);
    LookedOk(service, After(service, run, n), query, bias, now, oneLine);
    hide Looked, Uncached, After, AnswersKey, OneLineBiases;
  }

  /** After any history the memo is a map, and a lookup that finds nothing alive forgets exactly its
      own key. */
  lemma {:induction false} MemoIsMap(service: Service, run: seq<Event>, n: nat, query: string, bias: string, now: real)
    requires n <= |run|
    ensures var cache := After(service, run, n);
      var (looked, hit) := Looked(cache, query, bias, now);
      && IsMap(cache)
      && (hit.Some? ==> looked == cache)
      && (hit.None? ==> forall i :: 0 <= i < |looked| ==> looked[i].key != MemoKey(query, bias))
      && forall i :: 0 <= i < |cache| && cache[i].key != MemoKey(query, bias) ==> cache[i] in looked
  {
    hide Find, With, Without, Trimmed, IsMap, MemoKey, Uncached, Remembered;
    if n == 0 {
      EmptyIsMap();
    } else {
      var before, e := After(service, run, n - 1), run[n - 1];
      MemoIsMap(service, run, n - 1, query, bias, now);
      var a := Uncached(service, e.query, e.bias);
      WithStaysMap(before, Entry(MemoKey(e.query, e.bias), a.place, e.now + if a.place.Some? then FOUND_TTL_MS else MISS_TTL_MS));
      WithoutStaysMap(before, MemoKey(e.query, e.bias));
    }
    var cache := After(service, run, n);
    WithoutStaysMap(cache, MemoKey(query, bias));
    forall i | 0 <= i < |cache| && cache[i].key != MemoKey(query, bias)
      ensures cache[i] in Looked(cache, query, bias, now).0
    {
      WithoutKeeps(cache, MemoKey(query, bias), i);
    }
  }

  lemma EmptyIsMap()
    ensures IsMap([])
  {
  }

  // ---- how long an answer is remembered ------------------------------------

  lemma {:induction false} FindsPut(cache: seq<Entry>, e: Entry)
    ensures Find(With(cache, e), e.key).Some?
    ensures var k := Find(With(cache, e), e.key).value; With(cache, e)[k] == e
  {
    var k := Find(cache, e.key);
    if cache == [] {
      assert With(cache, e) == [e];
    } else if k != Some(0) {
      var rest := cache[1..];
      FindsPut(rest, e);
      assert With(cache, e)[0] == cache[0] && With(cache, e)[1..] == With(rest, e);
    }
  }

  lemma NotInRest(cache: seq<Entry>, key: string)
    requires cache != [] && Find(cache, key).None?
    ensures Find(cache[1..], key).None?
  {
  }

  lemma JustPut(cache: seq<Entry>, e: Entry, now: real)
    requires |cache| <= PHOTON_CACHE_MAX
    ensures Remembered(Trimmed(With(cache, e)), e.key, now) == if now < e.expires then Some(Answer(e.place, true)) else None
  {
    FindsPut(cache, e);
    if |cache| == PHOTON_CACHE_MAX && Find(cache, e.key).None? {
      FindsPut(cache[1..], e);
      NotInRest(cache, e.key);
      assert Trimmed(cache + [e]) == cache[1..] + [e];
    }
    hide Find;
  }

  /** An answer just given is remembered for five minutes when it names a place and for half a minute
      when it is that there is none; no answer is not remembered at all. */
  lemma RememberedFor(service: Service, cache: seq<Entry>, query: string, bias: string, startMs: real, now: real)
    requires |cache| <= PHOTON_CACHE_MAX
    ensures var a, after := Uncached(service, query, bias), Finished(service, cache, query, bias, startMs);
      && (a.answered ==> (Looked(after, query, bias, now).1 ==
            if now < startMs + (if a.place.Some? then 300000.0 else 30000.0) then Some(Answer(a.place, true)) else None))
      && (!a.answered ==> after == cache)
  {
    hide Uncached, Without, Remembered, Trimmed, With, MemoKey;
    var a := Uncached(service, query, bias);
    var e := Entry(MemoKey(query, bias), a.place, startMs + if a.place.Some? then 300000.0 else 30000.0);
    JustPut(cache, e, now);
    if a.answered {
      assert Finished(service, cache, query, bias, startMs) == Trimmed(With(cache, e));
    }
  }

  // ---- the object ----------------------------------------------------------

  class PhotonGeocoder {
    const service: Service
    var cache: seq<Entry>

    constructor (service: Service)
      ensures this.service == service && cache == []
      ensures CacheOk(service, cache, true)
    {
      this.service := service;
      cache := [];
    }

    method SelectPhotonFeature(features: seq<Feature>, target: string, allowContains: bool) returns (chosen: Option<Feature>)
      ensures chosen == Select(service, features, target, allowContains)
    {
      hide Matches;
      if target == "" {
        return None;
      }
      var names := Names(service, features);
      for k := 0 to |features|
        invariant forall j :: 0 <= j < k ==> !Matches(names[j], target, false)
      {
        if Matches(names[k], target, false) {
          return Some(features[k]);
        }
      }
      if !allowContains {
        return None;
      }
      for k := 0 to |features|
        invariant forall j :: 0 <= j < k ==> !Matches(names[j], target, true)
      {
        if Matches(names[k], target, true) {
          return Some(features[k]);
        }
      }
      chosen := None;
    }

    /** The requests of one lookup: near the view first, then anywhere. */
    method Request(query: string, bias: string) returns (a: Answer)
      ensures a == Uncached(service, query, bias)
    {
      hide Ask, Select, NormalizePhotonFeature;
      var feature: Option<Feature> := None;
      var everyAskAnswered := true;
      if bias != "" {
        var near := Ask(service, query, bias);
        if near.None? {
          everyAskAnswered := false;
        } else {
          feature := SelectPhotonFeature(near.value, service.normalize(query), false);
          SelectedHasPlace(service, query, bias);
        }
      }
      if feature.None? {
        var anywhere := Ask(service, query, "");
        if anywhere.None? {
          everyAskAnswered := false;
        } else {
          feature := SelectPhotonFeature(anywhere.value, service.normalize(service.head(query)), true);
          if feature.None? && |anywhere.value| > 0 {
            feature := Some(anywhere.value[0]);
          }
        }
      }
      var place := if feature.None? then None else NormalizePhotonFeature(feature.value);
      a := Answer(place, place.Some? || everyAskAnswered);
    }

    method TrimPhotonCache()
      modifies `cache
      ensures cache == Trimmed(old(cache))
    {
      ghost var all := cache;
      while |cache| > PHOTON_CACHE_MAX
        invariant |cache| <= |all| && cache == all[|all| - |cache|..]
        invariant |all| > PHOTON_CACHE_MAX ==> |cache| >= PHOTON_CACHE_MAX
        invariant |all| <= PHOTON_CACHE_MAX ==> cache == all
      {
        cache := cache[1..];
      }
    }

    method Recall(query: string, bias: string, now: real) returns (hit: Option<Answer>)
      modifies `cache
      ensures (cache, hit) == Looked(old(cache), query, bias, now)
    {
      var k := Find(cache, MemoKey(query, bias));
      if k.Some? && cache[k.value].expires > now {
        return Some(Answer(cache[k.value].place, true));
      }
      cache := Without(cache, MemoKey(query, bias));
      hit := None;
    }

    method Remember(query: string, bias: string, a: Answer, now: real)
      requires a == Uncached(service, query, bias)
      modifies `cache
      ensures cache == Finished(service, old(cache), query, bias, now)
    {
      if a.answered {
        cache := With(cache, Entry(MemoKey(query, bias), a.place, now + if a.place.Some? then FOUND_TTL_MS else MISS_TTL_MS));
        TrimPhotonCache();
      }
    }

    /** One lookup with nothing in between; the query is trimmed. Whatever the memo holds, the
        answer is the one without it. The flag says that no bias so far had a line break. */
    method Geocode(query: string, bias: string, startMs: real, endMs: real, ghost oneLine: bool) returns (a: Answer)
      requires CacheOk(service, cache, oneLine) && (oneLine ==> '\n' !in bias)
      modifies `cache
      ensures CacheOk(service, cache, oneLine)
      ensures query == "" ==> a == Answer(None, true) && cache == old(cache)
      ensures query != "" ==> AnswersKey(service, query, bias, a)
      ensures query != "" && '\n' !in bias && (oneLine || '\n' !in query) ==> a == Uncached(service, query, bias)
    {
      hide Uncached, CacheOk, Finished, Looked;
      if query == "" {
        return Answer(None, true);
      }
      LookedOk(service, cache, query, bias, startMs, oneLine);
      var hit := Recall(query, bias, startMs);
      if hit.Some? {
        return hit.value;
      }
      a := Request(query, bias);
      FinishedOk(service, cache, query, bias, endMs, oneLine);
      Remember(query, bias, a, endMs);
    }
  }

  lemma SelectedHasPlace(service: Service, query: string, bias: string)
    ensures Biased(service, query, bias).Some? ==> NormalizePhotonFeature(Biased(service, query, bias).value).Some?
  {
    if bias != "" && Ask(service, query, bias).Some? {
      SelectedIsIn(service, Ask(service, query, bias).value, service.normalize(query), false);
    }
    hide Select, NormalizePhotonFeature;
  }
}
