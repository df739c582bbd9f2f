/** The crawler's worklist: workers interleaved at their yield points, on a network that answers every URL one way. */
module CrawlerSpec {
  type Url = string
  type Worker = nat

  datatype Answer = Redirect(next: Url) | Page(links: seq<Url>)

  /** A URL fails so many times before it answers. */
  datatype Site = Site(failures: nat, answer: Answer)

  datatype Config = Config(roots: seq<Url>, net: Url -> Site, allowed: Url -> bool, maxRedirect: nat, maxTries: nat)

  /** A queued URL with the redirects it may still follow. */
  datatype Job = Job(url: Url, redirects: nat)

  /**
   * The queue with its count of unfinished items, the URLs seen, the records, the workers that wait for a
   * response, for a page's text, or for the release of a response; and the histories: every URL put into the
   * queue, those taken out, who took each, and the URLs at which a redirect was refused at the limit.
   */
  datatype State = State(
    q: seq<Job>, unfinished: int, seen: set<Url>, done: seq<Url>,
    fetching: map<Worker, Job>, parsing: map<Worker, Job>, releasing: map<Worker, Url>,
    put: seq<Url>, got: seq<Url>, who: map<Url, Worker>, refused: set<Url>)

  datatype Event = Get(w: Worker) | Respond(w: Worker) | Parse(w: Worker) | Release(w: Worker)

  // ---- Steps ----

  function AddUrl(s: State, url: Url, redirects: nat): State {
    s.(seen := s.seen + {url}, q := s.q + [Job(url, redirects)], unfinished := s.unfinished + 1, put := s.put + [url])
  }

  function AddAll(s: State, urls: seq<Url>, redirects: nat): State
    decreases urls
  {
    if |urls| == 0 then s else AddAll(AddUrl(s, urls[0], redirects), urls[1..], redirects)
  }

  const EMPTY := State([], 0, {}, [], map[], map[], map[], [], [], map[], {})

  function Initial(c: Config): State {
    AddAll(EMPTY, c.roots, c.maxRedirect)
  }

  predicate Fails(c: Config, url: Url) {
    c.net(url).failures >= c.maxTries
  }

  /** Whether the k-th attempt at the URL, counted from 0, is answered. */
  predicate Answers(c: Config, url: Url, k: nat) {
    k >= c.net(url).failures
  }

  /** The links of a page that are allowed and not seen, each once. */
  function NewLinks(c: Config, links: seq<Url>, seen: set<Url>): seq<Url> {
    if |links| == 0 then []
    else if links[0] in seen || !c.allowed(links[0]) then NewLinks(c, links[1..], seen)
    else [links[0]] + NewLinks(c, links[1..], seen + {links[0]})
  }

  predicate Busy(s: State, w: Worker) {
    w in s.fetching || w in s.parsing || w in s.releasing
  }

  predicate Enabled(s: State, e: Event) {
    match e
    case Get(w) => !Busy(s, w) && |s.q| > 0
    case Respond(w) => w in s.fetching
    case Parse(w) => w in s.parsing
    case Release(w) => w in s.releasing
  }

  /** A redirect as far as the record; the target is still to be followed. */
  function Recorded(s: State, w: Worker): State
    requires w in s.fetching
  {
    var url := s.fetching[w].url;
    s.(fetching := s.fetching - {w}, releasing := s.releasing[w := url], done := s.done + [url])
  }

  /** The target is queued unless it was seen, or no redirect is left. */
  function Follow(s: State, job: Job, target: Url): State {
    if target in s.seen then s
    else if job.redirects > 0 then AddUrl(s, target, job.redirects - 1)
    else s.(refused := s.refused + {job.url})
  }

  function DoRespond(c: Config, s: State, w: Worker): State
    requires w in s.fetching
  {
    var job := s.fetching[w];
    if Fails(c, job.url) then
      s.(fetching := s.fetching - {w}, done := s.done + [job.url], unfinished := s.unfinished - 1)
    else match c.net(job.url).answer
      case Page(_) => s.(fetching := s.fetching - {w}, parsing := s.parsing[w := job])
      case Redirect(next) => Follow(Recorded(s, w), job, next)
  }

  function DoParse(c: Config, s: State, w: Worker): State
    requires w in s.parsing
  {
    var job := s.parsing[w];
    var t := s.(parsing := s.parsing - {w}, releasing := s.releasing[w := job.url], done := s.done + [job.url]);
    AddAll(t, NewLinks(c, PageLinks(c, job.url), s.seen), c.maxRedirect)
  }

  function PageLinks(c: Config, url: Url): seq<Url> {
    match c.net(url).answer case Page(links) => links case Redirect(_) => []
  }

  function Next(c: Config, s: State, e: Event): State
    requires Enabled(s, e)
  {
    match e
    case Get(w) =>
      s.(q := s.q[1..], fetching := s.fetching[w := s.q[0]], got := s.got + [s.q[0].url], who := s.who[s.q[0].url := w])
    case Respond(w) => DoRespond(c, s, w)
    case Parse(w) => DoParse(c, s, w)
    case Release(w) => s.(releasing := s.releasing - {w}, unfinished := s.unfinished - 1)
  }

  function After(c: Config, events: seq<Event>): State {
    if |events| == 0 then Initial(c)
    else
      var s := After(c, events[..|events| - 1]);
      var e := events[|events| - 1];
      if Enabled(s, e) then Next(c, s, e) else s
  }

  // ---- The invariant ----

  predicate Distinct(s: seq<Url>) {
    forall i, j :: 0 <= i < j < |s| ==> s[i] != s[j]
  }

  function Urls(q: seq<Job>): (r: seq<Url>)
    ensures |r| == |q|
  {
    seq(|q|, i requires 0 <= i < |q| => q[i].url)
  }

  ghost predicate QueueInv(s: State) {
    && s.put == s.got + Urls(s.q)
    && Distinct(s.put)
    && (forall u :: u in s.seen <==> u in s.put)
  }

  /** A worker is in one place, and the count is that of the queued items and the workers' items. */
  predicate Workers(queued: nat, unfinished: int,
                    fetching: map<Worker, Job>, parsing: map<Worker, Job>, releasing: map<Worker, Url>)
  {
    && fetching.Keys !! parsing.Keys && fetching.Keys !! releasing.Keys && parsing.Keys !! releasing.Keys
    && unfinished == queued + |fetching| + |parsing| + |releasing|
  }

  predicate WorkerInv(s: State) {
    Workers(|s.q|, s.unfinished, s.fetching, s.parsing, s.releasing)
  }

  predicate Holds(hands: map<Worker, Job>, w: Worker, u: Url) {
    w in hands && hands[w].url == u
  }

  /** Every URL taken out is recorded once, or in the hands of the one worker that took it. */
  ghost predicate Hands(done: seq<Url>, got: seq<Url>, who: map<Url, Worker>,
                        fetching: map<Worker, Job>, parsing: map<Worker, Job>)
  {
    && Distinct(done) && (forall u :: u in done ==> u in got)
    && (forall u :: u in got && u !in done ==> u in who && (Holds(fetching, who[u], u) || Holds(parsing, who[u], u)))
    && (forall w, u :: Holds(fetching, w, u) || Holds(parsing, w, u) ==>
          u in got && u !in done && u in who && who[u] == w)
  }

  ghost predicate HandsInv(s: State) {
    Hands(s.done, s.got, s.who, s.fetching, s.parsing)
  }

  predicate IsPage(c: Config, u: Url) {
    !Fails(c, u) && c.net(u).answer.Page?
  }

  predicate Redirects(c: Config, u: Url) {
    !Fails(c, u) && c.net(u).answer.Redirect?
  }

  /** Where a URL leads: a page's allowed links, or its redirect target. */
  predicate Leads(c: Config, u: Url, v: Url) {
    || (IsPage(c, u) && v in c.net(u).answer.links && c.allowed(v))
    || (Redirects(c, u) && v == c.net(u).answer.next)
  }

  ghost predicate LeadsInv(c: Config, s: State) {
    && (forall u, v :: u in s.done && Leads(c, u, v) ==> v in s.seen || u in s.refused)
    && (forall u :: u in s.refused ==> u in s.done && Redirects(c, u))
    && (forall w :: w in s.parsing ==> IsPage(c, s.parsing[w].url))
  }

  ghost predicate Inv(c: Config, s: State) {
    QueueInv(s) && WorkerInv(s) && HandsInv(s) && LeadsInv(c, s)
  }

  // ---- Adding to the queue ----

  lemma AddUrlQueue(s: State, url: Url, redirects: nat)
    requires QueueInv(s) && url !in s.seen
    ensures QueueInv(AddUrl(s, url, redirects))
  {
    var t := AddUrl(s, url, redirects);
    assert t.put == s.got + Urls(s.q) + [url];
    assert Urls(t.q) == Urls(s.q) + [url];
  }

  /** What AddAll leaves as it was. */
  predicate SameRest(s: State, t: State) {
    && t.done == s.done && t.fetching == s.fetching && t.parsing == s.parsing && t.releasing == s.releasing
    && t.got == s.got && t.who == s.who && t.refused == s.refused
  }

  lemma {:induction false} AddAllAdds(s: State, urls: seq<Url>, redirects: nat)
    ensures var t := AddAll(s, urls, redirects);
      && SameRest(s, t) && t.put == s.put + urls
      && |t.q| == |s.q| + |urls| && t.q[..|s.q|] == s.q && t.unfinished == s.unfinished + |urls|
      && (forall u :: u in t.seen <==> u in s.seen || u in urls)
      && (forall i :: |s.q| <= i < |t.q| ==> t.q[i] == Job(urls[i - |s.q|], redirects))
    decreases urls
  {
    if |urls| > 0 {
      AddAllAdds(AddUrl(s, urls[0], redirects), urls[1..], redirects);
      assert urls == [urls[0]] + urls[1..];
    }
  }

  lemma {:induction false} AddAllQueue(s: State, urls: seq<Url>, redirects: nat)
    requires QueueInv(s) && Distinct(urls) && forall u :: u in urls ==> u !in s.seen
    ensures QueueInv(AddAll(s, urls, redirects))
    decreases urls
  {
    if |urls| > 0 {
      AddUrlQueue(s, urls[0], redirects);
      assert urls[0] !in urls[1..];
      AddAllQueue(AddUrl(s, urls[0], redirects), urls[1..], redirects);
    }
  }

  lemma {:induction false} NewLinksAreNew(c: Config, links: seq<Url>, seen: set<Url>)
    ensures var r := NewLinks(c, links, seen);
      && Distinct(r)
      && (forall u :: u in r <==> u in links && c.allowed(u) && u !in seen)
  {
    if |links| > 0 {
      var rest := links[1..];
      assert forall u :: u in links <==> u == links[0] || u in rest;
      if links[0] in seen || !c.allowed(links[0]) {
        NewLinksAreNew(c, rest, seen);
      } else {
        NewLinksAreNew(c, rest, seen + {links[0]});
      }
    }
  }

  // ---- Every step keeps it ----

  lemma HandsGet(done: seq<Url>, got: seq<Url>, who: map<Url, Worker>,
                 fetching: map<Worker, Job>, parsing: map<Worker, Job>, w: Worker, job: Job)
    requires Hands(done, got, who, fetching, parsing)
    requires w !in fetching && w !in parsing && job.url !in got
    ensures Hands(done, got + [job.url], who[job.url := w], fetching[w := job], parsing)
  {
    var f := fetching[w := job];
    assert forall v, u :: Holds(f, v, u) <==> Holds(fetching, v, u) || (v == w && u == job.url);
    assert Holds(f, w, job.url);
  }

  lemma HandsRecord(done: seq<Url>, got: seq<Url>, who: map<Url, Worker>,
                    fetching: map<Worker, Job>, parsing: map<Worker, Job>, w: Worker, url: Url)
    requires Hands(done, got, who, fetching, parsing) && (w !in fetching || w !in parsing)
    requires Holds(fetching, w, url) || Holds(parsing, w, url)
    ensures Hands(done + [url], got, who, fetching - {w}, parsing - {w})
    ensures w !in fetching ==> fetching - {w} == fetching
    ensures w !in parsing ==> parsing - {w} == parsing
  {
    var f, p := fetching - {w}, parsing - {w};
    assert forall v, u :: Holds(f, v, u) <==> Holds(fetching, v, u) && v != w;
    assert forall v, u :: Holds(p, v, u) <==> Holds(parsing, v, u) && v != w;
    assert forall u :: u in done + [url] <==> u in done || u == url;
    assert forall v :: (Holds(fetching, v, url) || Holds(parsing, v, url)) ==> v == w;
    assert forall u :: (Holds(fetching, w, u) || Holds(parsing, w, u)) ==> u == url;
  }

  lemma HandsMove(done: seq<Url>, got: seq<Url>, who: map<Url, Worker>,
                  fetching: map<Worker, Job>, parsing: map<Worker, Job>, w: Worker)
    requires Hands(done, got, who, fetching, parsing) && w in fetching && w !in parsing
    ensures Hands(done, got, who, fetching - {w}, parsing[w := fetching[w]])
  {
    var f, p := fetching - {w}, parsing[w := fetching[w]];
    assert forall v, u :: Holds(f, v, u) || Holds(p, v, u) <==> Holds(fetching, v, u) || Holds(parsing, v, u);
  }

  lemma {:induction false} DistinctPrefix(a: seq<Url>, b: seq<Url>)
    requires Distinct(a + b)
    ensures forall u :: u in a ==> u !in b
  {
    forall u | u in a ensures u !in b {
      var i :| 0 <= i < |a| && a[i] == u;
      forall j | 0 <= j < |b| ensures b[j] != u {
        assert (a + b)[i] == u && (a + b)[|a| + j] == b[j];
      }
    }
  }

  lemma MapSizes<K, V>(m: map<K, V>, k: K, v: V)
    ensures |m[k := v]| == if k in m then |m| else |m| + 1
    ensures |m - {k}| == if k in m then |m| - 1 else |m|
  {
    assert m[k := v].Keys == m.Keys + {k} && (m - {k}).Keys == m.Keys - {k};
    assert |m[k := v]| == |m[k := v].Keys| && |m - {k}| == |(m - {k}).Keys| && |m| == |m.Keys|;
    if k !in m {
      assert m.Keys - {k} == m.Keys;
    } else {
      assert m.Keys + {k} == m.Keys;
    }
  }

  /** A worker takes an item, goes on from one place to the next, or is done with its item. */
  lemma WorkersMove(queued: nat, unfinished: int,
                    fetching: map<Worker, Job>, parsing: map<Worker, Job>, releasing: map<Worker, Url>,
                    w: Worker, job: Job, url: Url)
    requires Workers(queued, unfinished, fetching, parsing, releasing)
    ensures queued > 0 && w !in fetching && w !in parsing && w !in releasing ==>
      Workers(queued - 1, unfinished, fetching[w := job], parsing, releasing)
    ensures w in fetching ==>
      && Workers(queued, unfinished, fetching - {w}, parsing[w := job], releasing)
      && Workers(queued, unfinished, fetching - {w}, parsing, releasing[w := url])
    ensures w in parsing ==> Workers(queued, unfinished, fetching, parsing - {w}, releasing[w := url])
  {
    MapSizes(fetching, w, job);
    MapSizes(parsing, w, job);
    MapSizes(releasing, w, url);
  }

  lemma WorkersRelease(queued: nat, unfinished: int,
                       fetching: map<Worker, Job>, parsing: map<Worker, Job>, releasing: map<Worker, Url>, w: Worker)
    requires Workers(queued, unfinished, fetching, parsing, releasing) && w in releasing
    ensures Workers(queued, unfinished - 1, fetching, parsing, releasing - {w})
  {
    MapSizes(releasing, w, releasing[w]);
  }

  lemma WorkersAdd(queued: nat, unfinished: int,
                   fetching: map<Worker, Job>, parsing: map<Worker, Job>, releasing: map<Worker, Url>, n: nat)
    requires Workers(queued, unfinished, fetching, parsing, releasing)
    ensures Workers(queued + n, unfinished + n, fetching, parsing, releasing)
  {
  }

  lemma OnePlace(s: State, w: Worker)
    requires WorkerInv(s)
    ensures w in s.fetching ==> w !in s.parsing && w !in s.releasing
    ensures w in s.parsing ==> w !in s.fetching && w !in s.releasing
  {
  }

  lemma GetKeeps(c: Config, s: State, w: Worker)
    requires Inv(c, s) && Enabled(s, Get(w))
    ensures Inv(c, Next(c, s, Get(w)))
  {
    hide LeadsInv, Distinct, Hands, Urls, Workers;
    var job := s.q[0];
    var t := Next(c, s, Get(w));
    UrlsSplit(s.q);
    DistinctPrefix(s.got, Urls(s.q));
    HandsGet(s.done, s.got, s.who, s.fetching, s.parsing, w, job);
    WorkersMove(|s.q|, s.unfinished, s.fetching, s.parsing, s.releasing, w, job, job.url);
    assert s.got + Urls(s.q) == (s.got + [job.url]) + Urls(s.q[1..]);
    LeadsOnly(c, s, t);
  }

  lemma UrlsSplit(q: seq<Job>)
    requires |q| > 0
    ensures Urls(q) == [q[0].url] + Urls(q[1..]) && q[0].url in Urls(q)
  {
    assert Urls(q)[0] == q[0].url;
  }

  lemma LeadsOnly(c: Config, s: State, t: State)
    requires LeadsInv(c, s) && t.done == s.done && t.refused == s.refused && t.parsing == s.parsing && s.seen <= t.seen
    ensures LeadsInv(c, t)
  {
  }

  /** The worker's URL is recorded and what it leads to is seen, or refused. */
  lemma LeadsRecord(c: Config, s: State, t: State, url: Url)
    requires LeadsInv(c, s) && t.done == s.done + [url] && s.seen <= t.seen
    requires forall w :: w in t.parsing ==> w in s.parsing && t.parsing[w] == s.parsing[w]
    requires t.refused == s.refused || (t.refused == s.refused + {url} && Redirects(c, url))
    requires url !in t.refused ==> forall v :: Leads(c, url, v) ==> v in t.seen
    ensures LeadsInv(c, t)
  {
    hide Leads, IsPage, Redirects;
    forall u, v | u in t.done && Leads(c, u, v) ensures v in t.seen || u in t.refused {
      if u != url {
        assert u in s.done;
      }
    }
  }

  function Failed(s: State, w: Worker): State
    requires w in s.fetching
  {
    s.(fetching := s.fetching - {w}, done := s.done + [s.fetching[w].url], unfinished := s.unfinished - 1)
  }

  lemma FailHands(s: State, w: Worker)
    requires WorkerInv(s) && HandsInv(s) && w in s.fetching
    ensures HandsInv(Failed(s, w))
  {
    hide Hands;
    OnePlace(s, w);
    HandsRecord(s.done, s.got, s.who, s.fetching, s.parsing, w, s.fetching[w].url);
  }

  lemma FailWorkers(s: State, w: Worker)
    requires WorkerInv(s) && w in s.fetching
    ensures WorkerInv(Failed(s, w))
  {
    MapSizes(s.fetching, w, s.fetching[w]);
  }

  lemma FailKeeps(c: Config, s: State, w: Worker)
    requires Inv(c, s) && w in s.fetching && Fails(c, s.fetching[w].url)
    ensures Inv(c, DoRespond(c, s, w))
  {
    hide QueueInv, HandsInv, LeadsInv, WorkerInv;
    FailHands(s, w);
    FailWorkers(s, w);
    QueueOnly(s, Failed(s, w));
    LeadsRecord(c, s, Failed(s, w), s.fetching[w].url);
  }

  lemma QueueOnly(s: State, t: State)
    requires QueueInv(s) && t.put == s.put && t.got == s.got && t.q == s.q && t.seen == s.seen
    ensures QueueInv(t)
  {
  }

  lemma LeadsPage(c: Config, s: State, t: State, w: Worker)
    requires LeadsInv(c, s) && w in s.fetching && IsPage(c, s.fetching[w].url)
    requires t.done == s.done && t.refused == s.refused && t.seen == s.seen
    requires t.parsing == s.parsing[w := s.fetching[w]]
    ensures LeadsInv(c, t)
  {
    hide Leads, IsPage, Redirects;
  }

  lemma PageKeeps(c: Config, s: State, w: Worker)
    requires Inv(c, s) && w in s.fetching && IsPage(c, s.fetching[w].url)
    ensures Inv(c, DoRespond(c, s, w))
  {
    hide QueueInv, Hands, Workers, LeadsInv;
    var t, job := DoRespond(c, s, w), s.fetching[w];
    OnePlace(s, w);
    HandsMove(s.done, s.got, s.who, s.fetching, s.parsing, w);
    WorkersMove(|s.q|, s.unfinished, s.fetching, s.parsing, s.releasing, w, job, job.url);
    QueueOnly(s, t);
    LeadsPage(c, s, t, w);
  }

  lemma RedirectParts(c: Config, s: State, w: Worker)
    requires Inv(c, s) && w in s.fetching
    ensures var t := Recorded(s, w); QueueInv(t) && WorkerInv(t) && HandsInv(t)
  {
    hide QueueInv, Hands, Workers;
    var job := s.fetching[w];
    OnePlace(s, w);
    HandsRecord(s.done, s.got, s.who, s.fetching, s.parsing, w, job.url);
    WorkersMove(|s.q|, s.unfinished, s.fetching, s.parsing, s.releasing, w, job, job.url);
    QueueOnly(s, Recorded(s, w));
  }

  lemma AddUrlParts(s: State, url: Url, redirects: nat)
    requires QueueInv(s) && WorkerInv(s) && HandsInv(s) && url !in s.seen
    ensures var t := AddUrl(s, url, redirects); QueueInv(t) && WorkerInv(t) && HandsInv(t)
  {
    hide QueueInv, Hands, Workers;
    AddUrlQueue(s, url, redirects);
    WorkersAdd(|s.q|, s.unfinished, s.fetching, s.parsing, s.releasing, 1);
    var t := AddUrl(s, url, redirects);
    assert |t.q| == |s.q| + 1;
    hide AddUrl;
  }

  lemma FollowParts(s: State, job: Job, target: Url)
    requires QueueInv(s) && WorkerInv(s) && HandsInv(s)
    ensures var t := Follow(s, job, target); QueueInv(t) && WorkerInv(t) && HandsInv(t)
  {
    hide QueueInv, Hands, Workers, AddUrl;
    if target in s.seen {
    } else if job.redirects > 0 {
      AddUrlParts(s, target, job.redirects - 1);
    } else {
      QueueOnly(s, Follow(s, job, target));
    }
  }

  lemma RedirectKeeps(c: Config, s: State, w: Worker)
    requires Inv(c, s) && w in s.fetching && Redirects(c, s.fetching[w].url)
    ensures Inv(c, DoRespond(c, s, w))
  {
    hide QueueInv, HandsInv, LeadsInv, WorkerInv;
    var t, job := DoRespond(c, s, w), s.fetching[w];
    RedirectParts(c, s, w);
    FollowParts(Recorded(s, w), job, c.net(job.url).answer.next);
    LeadsRecord(c, s, t, job.url);
  }

  lemma ParseKeeps(c: Config, s: State, w: Worker)
    requires Inv(c, s) && w in s.parsing
    ensures Inv(c, DoParse(c, s, w))
  {
    hide QueueInv, Hands, AddAll, NewLinks, Workers;
    var job := s.parsing[w];
    var mid := s.(parsing := s.parsing - {w}, releasing := s.releasing[w := job.url], done := s.done + [job.url]);
    var links := NewLinks(c, PageLinks(c, job.url), s.seen);
    NewLinksAreNew(c, PageLinks(c, job.url), s.seen);
    assert IsPage(c, job.url);
    hide LeadsInv;
    QueueOnly(s, mid);
    AddAllQueue(mid, links, c.maxRedirect);
    AddAllAdds(mid, links, c.maxRedirect);
    OnePlace(s, w);
    HandsRecord(s.done, s.got, s.who, s.fetching, s.parsing, w, job.url);
    WorkersMove(|s.q|, s.unfinished, s.fetching, s.parsing, s.releasing, w, job, job.url);
    WorkersAdd(|s.q|, s.unfinished, s.fetching, mid.parsing, mid.releasing, |links|);
    LeadsRecord(c, s, DoParse(c, s, w), job.url);
  }

  lemma ReleaseKeeps(c: Config, s: State, w: Worker)
    requires Inv(c, s) && w in s.releasing
    ensures Inv(c, s.(releasing := s.releasing - {w}, unfinished := s.unfinished - 1))
  {
    hide QueueInv, Hands, LeadsInv, Workers;
    var t := s.(releasing := s.releasing - {w}, unfinished := s.unfinished - 1);
    WorkersRelease(|s.q|, s.unfinished, s.fetching, s.parsing, s.releasing, w);
    QueueOnly(s, t);
    LeadsOnly(c, s, t);
  }

  lemma StepKeeps(c: Config, s: State, e: Event)
    requires Inv(c, s) && Enabled(s, e)
    ensures Inv(c, Next(c, s, e))
  {
    hide Inv, DoRespond, DoParse;
    match e
    case Get(w) => GetKeeps(c, s, w);
    case Respond(w) =>
      var url := s.fetching[w].url;
      if Fails(c, url) { FailKeeps(c, s, w); } else if IsPage(c, url) { PageKeeps(c, s, w); } else { RedirectKeeps(c, s, w); }
    case Parse(w) => ParseKeeps(c, s, w);
    case Release(w) => ReleaseKeeps(c, s, w);
  }

  lemma InitialKeeps(c: Config)
    requires Distinct(c.roots)
    ensures Inv(c, Initial(c))
  {
    hide AddAll;
    AddAllQueue(EMPTY, c.roots, c.maxRedirect);
    AddAllAdds(EMPTY, c.roots, c.maxRedirect);
  }

  lemma {:induction false} RunKeeps(c: Config, events: seq<Event>)
    requires Distinct(c.roots)
    ensures Inv(c, After(c, events))
  {
    hide Inv, Next, Enabled, Initial;
    if |events| == 0 {
      InitialKeeps(c);
    } else {
      var s, e := After(c, events[..|events| - 1]), events[|events| - 1];
      RunKeeps(c, events[..|events| - 1]);
      if Enabled(s, e) {
        StepKeeps(c, s, e);
      }
    }
  }

  // ---- What every run delivers ----

  /** All that the queue's join waits for: no item is queued, and none is in a worker's hands. */
  predicate Drained(s: State) {
    s.unfinished == 0
  }

  /** Each URL is put into the queue once, seen from then on, and taken out in this order. */
  lemma QueuedOnce(c: Config, events: seq<Event>)
    requires Distinct(c.roots)
    ensures var s := After(c, events);
      && Distinct(s.put) && s.put == s.got + Urls(s.q)
      && (forall u :: u in s.seen <==> u in s.put) && (forall u :: u in s.got ==> u in s.seen)
  {
    RunKeeps(c, events);
  }

  /** Repeated roots are queued again: adding a URL does not look whether it was seen. */
  lemma QueuedOnceNeedsDistinctRoots(c: Config)
    ensures (forall events :: Distinct(After(c, events).put)) <==> Distinct(c.roots)
  {
    if Distinct(c.roots) {
      forall events ensures Distinct(After(c, events).put) {
        RunKeeps(c, events);
      }
    } else {
      AddAllAdds(EMPTY, c.roots, c.maxRedirect);
      assert EMPTY.put + c.roots == c.roots;
      var none: seq<Event> := [];
      assert After(c, none) == Initial(c);
      assert After(c, none).put == c.roots;
      assert !Distinct(After(c, none).put);
    }
  }

  /** When the queue has drained there is exactly one record for each URL seen. */
  lemma DrainedIsRecorded(c: Config, events: seq<Event>)
    requires Distinct(c.roots) && Drained(After(c, events))
    ensures var s := After(c, events);
      && s.q == [] && s.fetching == map[] && s.parsing == map[] && s.releasing == map[]
      && Distinct(s.done) && (forall u :: u in s.done <==> u in s.seen)
  {
    hide After;
    RunKeeps(c, events);
    DrainedState(c, After(c, events));
  }

  lemma DrainedState(c: Config, s: State)
    requires Inv(c, s) && Drained(s)
    ensures s.q == [] && s.fetching == map[] && s.parsing == map[] && s.releasing == map[]
    ensures Distinct(s.done) && (forall u :: u in s.done <==> u in s.seen)
  {
    hide LeadsInv, Distinct;
    assert |s.q| == 0 && |s.fetching| == 0 && |s.parsing| == 0 && |s.releasing| == 0;
    assert s.fetching == map[] && s.parsing == map[] && s.releasing == map[];
    assert Urls(s.q) == [] && s.put == s.got;
    forall u | u in s.got ensures u in s.done {
      assert forall w :: !Holds(s.fetching, w, u) && !Holds(s.parsing, w, u);
    }
  }

  /** A set of URLs that holds the roots and everything its members lead to. */
  ghost predicate Closed(c: Config, urls: iset<Url>) {
    && (forall u :: u in c.roots ==> u in urls)
    && (forall u, v :: u in urls && Leads(c, u, v) ==> v in urls)
  }

  ghost function Seen(s: State): iset<Url> {
    iset u | u in s.seen
  }

  lemma NextStaysInside(c: Config, s: State, e: Event, urls: iset<Url>)
    requires Inv(c, s) && Enabled(s, e) && Closed(c, urls) && Seen(s) <= urls
    ensures Seen(Next(c, s, e)) <= urls
  {
    hide AddAll, NewLinks;
    match e
    case Get(w) =>
    case Respond(w) =>
      var url := s.fetching[w].url;
      assert Holds(s.fetching, w, url);
      assert url in s.put && url in Seen(s);
      if Redirects(c, url) {
        assert Leads(c, url, c.net(url).answer.next);
      }
    case Parse(w) =>
      var job := s.parsing[w];
      assert Holds(s.parsing, w, job.url);
      assert job.url in s.put && job.url in Seen(s);
      var mid := s.(parsing := s.parsing - {w}, releasing := s.releasing[w := job.url], done := s.done + [job.url]);
      NewLinksAreNew(c, PageLinks(c, job.url), s.seen);
      AddAllAdds(mid, NewLinks(c, PageLinks(c, job.url), s.seen), c.maxRedirect);
      forall v | v in NewLinks(c, PageLinks(c, job.url), s.seen) ensures v in urls {
        assert Leads(c, job.url, v);
      }
    case Release(w) =>
  }

  /** Nothing is seen beyond what the roots lead to. */
  lemma {:induction false} SeenStaysInside(c: Config, events: seq<Event>, urls: iset<Url>)
    requires Distinct(c.roots) && Closed(c, urls)
    ensures Seen(After(c, events)) <= urls
  {
    hide Inv, Next, Enabled, Leads;
    if |events| == 0 {
      hide AddAll;
      AddAllAdds(EMPTY, c.roots, c.maxRedirect);
    } else {
      var s, e := After(c, events[..|events| - 1]), events[|events| - 1];
      SeenStaysInside(c, events[..|events| - 1], urls);
      RunKeeps(c, events[..|events| - 1]);
      if Enabled(s, e) {
        NextStaysInside(c, s, e, urls);
      }
    }
  }

  lemma {:induction false} RootsSeen(c: Config, events: seq<Event>)
    ensures forall u :: u in c.roots ==> u in After(c, events).seen
  {
    hide AddAll;
    if |events| == 0 {
      AddAllAdds(EMPTY, c.roots, c.maxRedirect);
    } else {
      var s, e := After(c, events[..|events| - 1]), events[|events| - 1];
      RootsSeen(c, events[..|events| - 1]);
      if Enabled(s, e) {
        SeenGrows(c, s, e);
      }
    }
  }

  lemma SeenGrows(c: Config, s: State, e: Event)
    requires Enabled(s, e)
    ensures s.seen <= Next(c, s, e).seen
  {
    if e.Parse? {
      hide AddAll, NewLinks;
      var w, job := e.w, s.parsing[e.w];
      var mid := s.(parsing := s.parsing - {w}, releasing := s.releasing[w := job.url], done := s.done + [job.url]);
      AddAllAdds(mid, NewLinks(c, PageLinks(c, job.url), s.seen), c.maxRedirect);
    }
  }

  /**
   * When the queue has drained, whatever the interleaving was, the URLs seen are the closure of the roots, the
   * least closed set, if and only if every redirect that was refused at the limit leads to a URL seen anyway.
   */
  lemma DrainedIsClosure(c: Config, events: seq<Event>)
    requires Distinct(c.roots) && Drained(After(c, events))
    ensures var s := After(c, events);
      && (Closed(c, Seen(s)) <==> forall u :: u in s.refused ==> c.net(u).answer.Redirect? && c.net(u).answer.next in s.seen)
      && (forall urls :: Closed(c, urls) ==> Seen(s) <= urls)
  {
    RunKeeps(c, events);
    DrainedIsRecorded(c, events);
    RootsSeen(c, events);
    var s := After(c, events);
    forall urls | Closed(c, urls) ensures Seen(s) <= urls {
      SeenStaysInside(c, events, urls);
    }
    hide After, Hands, Workers, QueueInv;
    if Closed(c, Seen(s)) {
      forall u | u in s.refused ensures c.net(u).answer.Redirect? && c.net(u).answer.next in s.seen {
        assert u in Seen(s) && Leads(c, u, c.net(u).answer.next);
      }
    }
  }

  /** A URL fails exactly if none of the first maxTries attempts is answered. */
  lemma FailsExactly(c: Config, url: Url)
    ensures Fails(c, url) <==> forall k: nat :: k < c.maxTries ==> !Answers(c, url, k)
  {
    if !Fails(c, url) {
      assert Answers(c, url, c.net(url).failures);
    }
  }

  // ---- The redirect limit ----

  /** A chain of redirects through different URLs. */
  predicate RedirectPath(c: Config, p: seq<Url>) {
    && |p| > 0 && Distinct(p)
    && forall i :: 0 <= i < |p| - 1 ==> Redirects(c, p[i]) && p[i + 1] == c.net(p[i]).answer.next
  }

  /** Where a chain can start: at a root, or at an allowed link of a page within reach. */
  ghost predicate IsStart(c: Config, reach: iset<Url>, u: Url) {
    u in reach && (u in c.roots || exists v :: v in reach && IsPage(c, v) && Leads(c, v, u))
  }

  /** No chain of redirects within reach, loops cut where they close, is longer than the limit. */
  ghost predicate ShortChains(c: Config, reach: iset<Url>) {
    forall p :: RedirectPath(c, p) && IsStart(c, reach, p[0]) ==> |p| <= c.maxRedirect + 1
  }

  /** A chain of redirects from a start to u, all of whose URLs were seen. */
  ghost predicate LeadsTo(c: Config, reach: iset<Url>, seen: set<Url>, p: seq<Url>, u: Url) {
    && RedirectPath(c, p) && IsStart(c, reach, p[0]) && p[|p| - 1] == u && forall i :: 0 <= i < |p| ==> p[i] in seen
  }

  /** The job came to its URL by redirects through URLs seen, and has what they left of the limit. */
  ghost predicate CameBy(c: Config, reach: iset<Url>, seen: set<Url>, job: Job, p: seq<Url>) {
    LeadsTo(c, reach, seen, p, job.url) && |p| + job.redirects == c.maxRedirect + 1
  }

  /** There is such a chain with no more redirects than the limit. */
  ghost predicate WithinLimit(c: Config, reach: iset<Url>, seen: set<Url>, u: Url) {
    exists p :: LeadsTo(c, reach, seen, p, u) && |p| - 1 <= c.maxRedirect
  }

  /** The URL redirects, and there is one with exactly as many. */
  ghost predicate AtLimit(c: Config, reach: iset<Url>, seen: set<Url>, u: Url) {
    Redirects(c, u) && exists p :: LeadsTo(c, reach, seen, p, u) && |p| - 1 == c.maxRedirect
  }

  ghost predicate JobOk(c: Config, reach: iset<Url>, seen: set<Url>, job: Job) {
    exists p :: CameBy(c, reach, seen, job, p)
  }

  ghost predicate BudgetInv(c: Config, reach: iset<Url>, s: State) {
    && (forall i :: 0 <= i < |s.q| ==> JobOk(c, reach, s.seen, s.q[i]))
    && (forall w :: w in s.fetching ==> JobOk(c, reach, s.seen, s.fetching[w]))
    && (forall w :: w in s.parsing ==> IsPage(c, s.parsing[w].url) && s.parsing[w].url in reach)
    && (forall u :: u in s.seen ==> u in reach && WithinLimit(c, reach, s.seen, u))
    && (forall u :: u in s.refused ==> AtLimit(c, reach, s.seen, u))
  }

  lemma SeesMore(c: Config, reach: iset<Url>, seen: set<Url>, more: set<Url>)
    requires seen <= more
    ensures forall p, u :: LeadsTo(c, reach, seen, p, u) ==> LeadsTo(c, reach, more, p, u)
    ensures forall job :: JobOk(c, reach, seen, job) ==> JobOk(c, reach, more, job)
    ensures forall u :: WithinLimit(c, reach, seen, u) ==> WithinLimit(c, reach, more, u)
    ensures forall u :: AtLimit(c, reach, seen, u) ==> AtLimit(c, reach, more, u)
  {
    hide RedirectPath, IsStart, Redirects;
    assert forall p, u :: LeadsTo(c, reach, seen, p, u) ==> LeadsTo(c, reach, more, p, u);
    hide LeadsTo;
    forall job | JobOk(c, reach, seen, job) ensures JobOk(c, reach, more, job) {
      var p :| CameBy(c, reach, seen, job, p);
      assert CameBy(c, reach, more, job, p);
    }
  }

  lemma StartOk(c: Config, reach: iset<Url>, seen: set<Url>, u: Url)
    requires IsStart(c, reach, u) && u in seen
    ensures JobOk(c, reach, seen, Job(u, c.maxRedirect))
  {
    assert CameBy(c, reach, seen, Job(u, c.maxRedirect), [u]);
  }

  /** A job's URL is within the limit, and at it once no redirect is left. */
  lemma JobWithin(c: Config, reach: iset<Url>, seen: set<Url>, job: Job)
    requires JobOk(c, reach, seen, job)
    ensures WithinLimit(c, reach, seen, job.url) && job.url in seen
    ensures job.redirects == 0 && Redirects(c, job.url) ==> AtLimit(c, reach, seen, job.url)
  {
    var p :| CameBy(c, reach, seen, job, p);
    assert p[|p| - 1] in seen;
    hide RedirectPath, IsStart;
  }

  /** A redirect to a URL not seen makes the chain longer. */
  lemma FollowOk(c: Config, reach: iset<Url>, seen: set<Url>, job: Job)
    requires JobOk(c, reach, seen, job) && Redirects(c, job.url) && c.net(job.url).answer.next !in seen
    ensures var next := c.net(job.url).answer.next;
      job.redirects > 0 ==> JobOk(c, reach, seen + {next}, Job(next, job.redirects - 1))
    ensures ShortChains(c, reach) ==> job.redirects > 0
  {
    var p :| CameBy(c, reach, seen, job, p);
    var next := c.net(job.url).answer.next;
    var longer := p + [next];
    LongerPath(c, p, seen);
    hide RedirectPath, IsStart;
    assert longer[0] == p[0];
    if job.redirects > 0 {
      assert CameBy(c, reach, seen + {next}, Job(next, job.redirects - 1), longer);
    }
  }

  lemma LongerPath(c: Config, p: seq<Url>, seen: set<Url>)
    requires RedirectPath(c, p) && Redirects(c, p[|p| - 1]) && forall i :: 0 <= i < |p| ==> p[i] in seen
    requires c.net(p[|p| - 1]).answer.next !in seen
    ensures RedirectPath(c, p + [c.net(p[|p| - 1]).answer.next])
  {
    hide Redirects;
  }

  lemma AddAllBudget(c: Config, reach: iset<Url>, s: State, urls: seq<Url>)
    requires BudgetInv(c, reach, s) && forall u :: u in urls ==> IsStart(c, reach, u)
    ensures BudgetInv(c, reach, AddAll(s, urls, c.maxRedirect))
  {
    hide JobOk, IsPage, AddAll, WithinLimit, AtLimit;
    AddAllAdds(s, urls, c.maxRedirect);
    var t := AddAll(s, urls, c.maxRedirect);
    SeesMore(c, reach, s.seen, t.seen);
    forall u | u in urls
      ensures u in reach && JobOk(c, reach, t.seen, Job(u, c.maxRedirect)) && WithinLimit(c, reach, t.seen, u)
    {
      StartOk(c, reach, t.seen, u);
      JobWithin(c, reach, t.seen, Job(u, c.maxRedirect));
    }
    hide IsStart;
    forall i | 0 <= i < |t.q| ensures JobOk(c, reach, t.seen, t.q[i]) {
      if i < |s.q| {
        assert t.q[i] == t.q[..|s.q|][i] == s.q[i];
      } else {
        assert urls[i - |s.q|] in urls;
      }
    }
  }

  lemma FollowBudget(c: Config, reach: iset<Url>, s: State, w: Worker)
    requires BudgetInv(c, reach, s) && w in s.fetching && Redirects(c, s.fetching[w].url)
    requires Seen(DoRespond(c, s, w)) <= reach
    ensures BudgetInv(c, reach, DoRespond(c, s, w))
    ensures ShortChains(c, reach) ==> DoRespond(c, s, w).refused == s.refused
  {
    hide JobOk, ShortChains, WithinLimit, AtLimit;
    var job, t := s.fetching[w], DoRespond(c, s, w);
    var next := c.net(job.url).answer.next;
    JobWithin(c, reach, s.seen, job);
    if next !in s.seen {
      FollowOk(c, reach, s.seen, job);
      if job.redirects > 0 {
        assert t == AddUrl(Recorded(s, w), next, job.redirects - 1);
        assert next in Seen(t);
        hide DoRespond, Redirects, Fails;
        SeesMore(c, reach, s.seen, t.seen);
        JobWithin(c, reach, t.seen, Job(next, job.redirects - 1));
      }
    }
  }

  /** Every step keeps the chains within the limit, and refuses none if the chains within reach are short. */
  lemma StepBudget(c: Config, reach: iset<Url>, s: State, e: Event)
    requires BudgetInv(c, reach, s) && Enabled(s, e) && Seen(Next(c, s, e)) <= reach
    ensures BudgetInv(c, reach, Next(c, s, e))
    ensures ShortChains(c, reach) ==> Next(c, s, e).refused == s.refused
  {
    hide AddAll, NewLinks, JobOk, ShortChains, WithinLimit, AtLimit;
    match e
    case Get(w) =>
    case Release(w) =>
    case Respond(w) =>
      JobWithin(c, reach, s.seen, s.fetching[w]);
      if Redirects(c, s.fetching[w].url) {
        FollowBudget(c, reach, s, w);
      }
    case Parse(w) =>
      var job := s.parsing[w];
      var mid := s.(parsing := s.parsing - {w}, releasing := s.releasing[w := job.url], done := s.done + [job.url]);
      var links := NewLinks(c, PageLinks(c, job.url), s.seen);
      NewLinksAreNew(c, PageLinks(c, job.url), s.seen);
      AddAllAdds(mid, links, c.maxRedirect);
      forall u | u in links ensures IsStart(c, reach, u) {
        assert Leads(c, job.url, u) && u in Seen(Next(c, s, e));
      }
      AddAllBudget(c, reach, mid, links);
  }

  lemma InitialBudget(c: Config, reach: iset<Url>)
    requires forall u :: u in c.roots ==> u in reach
    ensures BudgetInv(c, reach, Initial(c)) && Initial(c).refused == {}
  {
    hide AddAll;
    AddAllAdds(EMPTY, c.roots, c.maxRedirect);
    AddAllBudget(c, reach, EMPTY, c.roots);
  }

  lemma {:induction false} RunBudget(c: Config, events: seq<Event>, reach: iset<Url>)
    requires Seen(After(c, events)) <= reach
    ensures BudgetInv(c, reach, After(c, events))
  {
    hide Next, Enabled, ShortChains, BudgetInv, Initial;
    if |events| == 0 {
      RootsSeen(c, events);
      forall u | u in c.roots ensures u in reach {
        assert u in Seen(After(c, events));
      }
      InitialBudget(c, reach);
    } else {
      var s, e := After(c, events[..|events| - 1]), events[|events| - 1];
      if Enabled(s, e) {
        SeenGrows(c, s, e);
        RunBudget(c, events[..|events| - 1], reach);
        StepBudget(c, reach, s, e);
      } else {
        RunBudget(c, events[..|events| - 1], reach);
      }
    }
  }

  /**
   * In every run, on every network: each URL seen was reached by a chain of at most maxRedirect redirects from a root or
   * from an allowed link of a page seen, through URLs seen; and a redirect was refused only at the end of a chain of
   * exactly that many.
   */
  lemma LimitIsKept(c: Config, events: seq<Event>)
    ensures var s := After(c, events);
      && (forall u :: u in s.seen ==> WithinLimit(c, Seen(s), s.seen, u))
      && (forall u :: u in s.refused ==> AtLimit(c, Seen(s), s.seen, u))
  {
    hide After, WithinLimit, AtLimit, JobOk, IsPage, Seen;
    RunBudget(c, events, Seen(After(c, events)));
  }

  lemma InsideStep(c: Config, reach: iset<Url>, s: State, e: Event)
    requires BudgetInv(c, reach, s) && Enabled(s, e) && Closed(c, reach)
    ensures Seen(Next(c, s, e)) <= reach
  {
    hide AddAll, NewLinks, JobOk, WithinLimit, AtLimit;
    match e
    case Respond(w) =>
      var url := s.fetching[w].url;
      JobWithin(c, reach, s.seen, s.fetching[w]);
      if Redirects(c, url) {
        assert Leads(c, url, c.net(url).answer.next);
      }
    case Parse(w) =>
      var job := s.parsing[w];
      var mid := s.(parsing := s.parsing - {w}, releasing := s.releasing[w := job.url], done := s.done + [job.url]);
      var links := NewLinks(c, PageLinks(c, job.url), s.seen);
      NewLinksAreNew(c, PageLinks(c, job.url), s.seen);
      AddAllAdds(mid, links, c.maxRedirect);
      forall v | v in links ensures v in reach {
        assert Leads(c, job.url, v);
      }
    case _ =>
  }

  /**
   * No redirect is ever refused if no chain of redirects through different URLs within reach is longer than the
   * limit; loops are no obstacle, for a target seen before is not followed.
   */
  lemma {:induction false} LimitNeverHit(c: Config, events: seq<Event>, reach: iset<Url>)
    requires Closed(c, reach) && ShortChains(c, reach)
    ensures BudgetInv(c, reach, After(c, events)) && After(c, events).refused == {}
  {
    hide Next, Enabled, ShortChains, Leads, Initial;
    if |events| == 0 {
      InitialBudget(c, reach);
    } else {
      var s, e := After(c, events[..|events| - 1]), events[|events| - 1];
      LimitNeverHit(c, events[..|events| - 1], reach);
      hide BudgetInv;
      if Enabled(s, e) {
        InsideStep(c, reach, s, e);
        StepBudget(c, reach, s, e);
      }
    }
  }

  /** Then the URLs seen in the end are the closure of the roots, for every interleaving. */
  lemma ShortChainsGiveTheClosure(c: Config, events: seq<Event>, reach: iset<Url>)
    requires Distinct(c.roots) && Drained(After(c, events))
    requires Closed(c, reach) && ShortChains(c, reach)
    ensures Closed(c, Seen(After(c, events))) && Seen(After(c, events)) <= reach
  {
    hide After, Closed, ShortChains, BudgetInv;
    LimitNeverHit(c, events, reach);
    DrainedIsClosure(c, events);
  }

  /** A loop of redirects, for instance, is within every limit. */
  lemma LoopIsNoObstacle(c: Config, u: Url, events: seq<Event>)
    requires c.roots == [u] && Redirects(c, u) && c.net(u).answer.next == u && Drained(After(c, events))
    ensures Seen(After(c, events)) == iset{u} && Closed(c, iset{u})
  {
    var reach := iset{u};
    assert Closed(c, reach);
    forall p | RedirectPath(c, p) && IsStart(c, reach, p[0]) ensures |p| <= c.maxRedirect + 1 {
      if |p| > 1 {
        assert p[0] == u && p[1] == u;
      }
    }
    ShortChainsGiveTheClosure(c, events, reach);
    hide After, RedirectPath;
    assert u in Seen(After(c, events));
  }

  // ---- The crawl ends ----

  /** The steps that were possible when their turn came. */
  function StepsTaken(c: Config, events: seq<Event>): nat {
    if |events| == 0 then 0
    else
      var init, e := events[..|events| - 1], events[|events| - 1];
      StepsTaken(c, init) + if Enabled(After(c, init), e) then 1 else 0
  }

  /** Four steps for each URL queued, less those that are still to come. */
  function Progress(s: State): int {
    4 * |s.put| - 4 * |s.q| - 3 * |s.fetching| - 2 * |s.parsing| - |s.releasing|
  }

  lemma StepProgress(c: Config, s: State, e: Event)
    requires Inv(c, s) && Enabled(s, e)
    ensures Progress(Next(c, s, e)) > Progress(s)
  {
    hide AddAll, NewLinks, Hands, QueueInv, LeadsInv, DoRespond;
    match e
    case Get(w) => MapSizes(s.fetching, w, s.q[0]);
    case Release(w) => MapSizes(s.releasing, w, s.releasing[w]);
    case Respond(w) => RespondProgress(c, s, w);
    case Parse(w) =>
      var job := s.parsing[w];
      var mid := s.(parsing := s.parsing - {w}, releasing := s.releasing[w := job.url], done := s.done + [job.url]);
      AddAllAdds(mid, NewLinks(c, PageLinks(c, job.url), s.seen), c.maxRedirect);
      MapSizes(s.parsing, w, job);
      MapSizes(s.releasing, w, job.url);
  }

  lemma RespondProgress(c: Config, s: State, w: Worker)
    requires WorkerInv(s) && w in s.fetching
    ensures Progress(DoRespond(c, s, w)) > Progress(s)
  {
    hide Follow, Recorded;
    var job := s.fetching[w];
    if Fails(c, job.url) {
      MapSizes(s.fetching, w, job);
    } else if IsPage(c, job.url) {
      MapSizes(s.fetching, w, job);
      MapSizes(s.parsing, w, job);
    } else {
      RecordProgress(s, w);
      FollowProgress(Recorded(s, w), job, c.net(job.url).answer.next);
    }
  }

  lemma RecordProgress(s: State, w: Worker)
    requires WorkerInv(s) && w in s.fetching
    ensures Progress(Recorded(s, w)) > Progress(s)
  {
    MapSizes(s.fetching, w, s.fetching[w]);
    MapSizes(s.releasing, w, s.fetching[w].url);
  }

  lemma FollowProgress(s: State, job: Job, target: Url)
    ensures Progress(Follow(s, job, target)) == Progress(s)
  {
  }

  lemma {:induction false} StepsAreProgress(c: Config, events: seq<Event>)
    requires Distinct(c.roots)
    ensures StepsTaken(c, events) <= Progress(After(c, events))
  {
    hide Inv, Next, Enabled, Progress;
    if |events| == 0 {
      InitialProgress(c);
    } else {
      var s, e := After(c, events[..|events| - 1]), events[|events| - 1];
      StepsAreProgress(c, events[..|events| - 1]);
      RunKeeps(c, events[..|events| - 1]);
      if Enabled(s, e) {
        StepProgress(c, s, e);
      }
    }
  }

  lemma InitialProgress(c: Config)
    ensures Progress(Initial(c)) == 0
  {
    AddAllAdds(EMPTY, c.roots, c.maxRedirect);
  }

  lemma {:induction false} DistinctFits(urls: seq<Url>, bound: set<Url>)
    requires Distinct(urls) && forall u :: u in urls ==> u in bound
    ensures |urls| <= |bound|
  {
    if |urls| > 0 {
      var init, last := urls[..|urls| - 1], urls[|urls| - 1];
      forall u | u in init ensures u in bound - {last} {
      }
      DistinctFits(init, bound - {last});
    }
  }

  /**
   * If the roots lead to finitely many URLs, every interleaving stops after at most four steps for each of them,
   * and it does not stop before the queue has drained: a busy worker can always go on, and so can a free one
   * while URLs are queued.
   */
  lemma CrawlEnds(c: Config, events: seq<Event>, reach: set<Url>, w: Worker)
    requires Distinct(c.roots) && Closed(c, iset u | u in reach)
    ensures StepsTaken(c, events) <= 4 * |reach|
    ensures var s := After(c, events);
      && (Busy(s, w) || |s.q| > 0 ==> exists e: Event :: e.w == w && Enabled(s, e))
      && (!Drained(s) ==> exists e :: Enabled(s, e))
  {
    hide StepsTaken, Leads;
    RunKeeps(c, events);
    StepsAreProgress(c, events);
    SeenStaysInside(c, events, iset u | u in reach);
    var s := After(c, events);
    hide After;
    forall u | u in s.put ensures u in reach {
      assert u in Seen(s);
    }
    DistinctFits(s.put, reach);
    GoesOn(c, s, w);
  }

  lemma GoesOn(c: Config, s: State, w: Worker)
    requires Inv(c, s)
    ensures Busy(s, w) || |s.q| > 0 ==> exists e: Event :: e.w == w && Enabled(s, e)
    ensures !Drained(s) ==> exists e :: Enabled(s, e)
  {
    hide QueueInv, Hands, LeadsInv;
    assert w in s.fetching ==> Enabled(s, Respond(w));
    assert w in s.parsing ==> Enabled(s, Parse(w));
    assert w in s.releasing ==> Enabled(s, Release(w));
    assert !Busy(s, w) && |s.q| > 0 ==> Enabled(s, Get(w));
    if !Drained(s) && |s.q| == 0 {
      if s.fetching != map[] {
        var v :| v in s.fetching;
        assert Enabled(s, Respond(v));
      } else if s.parsing != map[] {
        var v :| v in s.parsing;
        assert Enabled(s, Parse(v));
      } else {
        assert |s.fetching| == 0 && |s.parsing| == 0 && |s.releasing| != 0;
        assert s.releasing != map[];
        var v :| v in s.releasing;
        assert Enabled(s, Release(v));
      }
    }
  }
}

/** The crawler as the class that its users see; each worker runs from one yield point to the next. */
module Crawler {
  import opened CrawlerSpec

  lemma LinksStep(c: Config, links: seq<Url>, i: nat, known: set<Url>)
    requires i < |links|
    ensures NewLinks(c, links[i..], known)
         == if links[i] in known || !c.allowed(links[i]) then NewLinks(c, links[i + 1..], known)
            else [links[i]] + NewLinks(c, links[i + 1..], known + {links[i]})
  {
    assert links[i..][1..] == links[i + 1..];
  }

  lemma LinksEnds(c: Config, links: seq<Url>, known: set<Url>)
    ensures links[0..] == links && NewLinks(c, links[|links|..], known) == []
  {
  }

  class Crawler {
    const config: Config
    var q: seq<Job>
    var unfinished: int
    var seenUrls: set<Url>
    var done: seq<Url>
    /** Where each busy worker waits, with the item that is in its local variables. */
    var fetching: map<Worker, Job>
    var parsing: map<Worker, Job>
    var releasing: map<Worker, Url>
    ghost var put: seq<Url>
    ghost var got: seq<Url>
    ghost var who: map<Url, Worker>
    ghost var refused: set<Url>

    ghost function Value(): State
      reads this
    {
      State(q, unfinished, seenUrls, done, fetching, parsing, releasing, put, got, who, refused)
    }

    /** Every queued URL is among those seen. */
    ghost predicate Valid()
      reads this
    {
      forall i :: 0 <= i < |q| ==> q[i].url in seenUrls
    }

    constructor (config: Config)
      ensures this.config == config && Valid() && Value() == Initial(config)
    {
      this.config := config;
      q, unfinished, seenUrls, done := [], 0, {}, [];
      fetching, parsing, releasing := map[], map[], map[];
      put, got, who, refused := [], [], map[], {};
      new;
      for i := 0 to |config.roots|
        invariant Valid() && AddAll(Value(), config.roots[i..], config.maxRedirect) == Initial(config)
      {
        AddUrl(config.roots[i], config.maxRedirect);
        assert config.roots[i..][1..] == config.roots[i + 1..];
      }
    }

    /** Adds a URL to the queue, whether it was seen or not. */
    method AddUrl(url: Url, redirects: nat)
      requires Valid()
      modifies this
      ensures Valid() && Value() == CrawlerSpec.AddUrl(old(Value()), url, redirects)
    {
      seenUrls := seenUrls + {url};
      q, unfinished, put := q + [Job(url, redirects)], unfinished + 1, put + [url];
    }

    /** A free worker takes the first item; the URL was seen, which the code asserts. */
    method Get(w: Worker)
      requires Valid() && Enabled(Value(), Event.Get(w))
      modifies this
      ensures Valid() && Value() == Next(config, old(Value()), Event.Get(w))
    {
      var job := q[0];
      q := q[1..];
      assert job.url in seenUrls;
      fetching, got, who := fetching[w := job], got + [job.url], who[job.url := w];
    }

    /** Attempts at one URL: up to the first that is answered, and no more than maxTries. */
    method Try(url: Url) returns (answered: bool, tries: nat)
      ensures answered <==> !Fails(config, url)
      ensures forall k: nat :: k < tries ==> !Answers(config, url, k)
      ensures if answered then tries < config.maxTries && Answers(config, url, tries) else tries == config.maxTries
    {
      FailsExactly(config, url);
      hide Fails;
      tries := 0;
      answered := false;
      while tries < config.maxTries && !answered
        invariant tries <= config.maxTries && forall k: nat :: k < tries ==> !Answers(config, url, k)
        invariant answered ==> tries < config.maxTries && Answers(config, url, tries)
        decreases config.maxTries - tries, if answered then 0 else 1
      {
        if Answers(config, url, tries) {
          answered := true;
        } else {
          tries := tries + 1;
        }
      }
    }

    /** The response is there: a failure is recorded and the item is done; a redirect is recorded and followed. */
    method Respond(w: Worker)
      requires Valid() && Enabled(Value(), Event.Respond(w))
      modifies this
      ensures Valid() && Value() == Next(config, old(Value()), Event.Respond(w))
    {
      var job := fetching[w];
      var answered, _ := Try(job.url);
      fetching := fetching - {w};
      if !answered {
        done, unfinished := done + [job.url], unfinished - 1;
      } else {
        match config.net(job.url).answer
        case Page(_) => parsing := parsing[w := job];
        case Redirect(next) =>
          done, releasing := done + [job.url], releasing[w := job.url];
          if next !in seenUrls {
            if job.redirects > 0 {
              AddUrl(next, job.redirects - 1);
            } else {
              refused := refused + {job.url};
            }
          }
      }
    }

    /** The page's text is there: it is recorded, and its allowed links that were not seen are queued. */
    method Parse(w: Worker)
      requires Valid() && Enabled(Value(), Event.Parse(w))
      modifies this
      ensures Valid() && Value() == Next(config, old(Value()), Event.Parse(w))
    {
      var job := parsing[w];
      var unseen := Links(job.url);
      parsing, releasing := parsing - {w}, releasing[w := job.url];
      done := done + [job.url];
      Enqueue(unseen);
    }

    /** Queues the URLs, then counts them all as seen. */
    method Enqueue(urls: seq<Url>)
      requires Valid()
      modifies this
      ensures Valid() && Value() == AddAll(old(Value()), urls, config.maxRedirect)
    {
      hide AddAll;
      ghost var s, t := Value(), AddAll(Value(), urls, config.maxRedirect);
      AddAllAdds(s, urls, config.maxRedirect);
      assert s.put + urls[..0] == s.put;
      for i := 0 to |urls|
        invariant Value() == s.(q := q, put := s.put + urls[..i], unfinished := s.unfinished + i)
        invariant q == t.q[..|s.q| + i]
      {
        q, unfinished := q + [Job(urls[i], config.maxRedirect)], unfinished + 1;
        put := put + [urls[i]];
        assert urls[..i + 1] == urls[..i] + [urls[i]];
      }
      assert urls[..|urls|] == urls && t.q[..|t.q|] == t.q;
      seenUrls := seenUrls + set url | url in urls;
      assert seenUrls == t.seen;
    }

    /** The allowed links of a page that are not seen yet, each once. */
    method Links(url: Url) returns (unseen: seq<Url>)
      ensures unseen == NewLinks(config, PageLinks(config, url), seenUrls)
    {
      hide NewLinks;
      var links := PageLinks(config, url);
      unseen := [];
      ghost var known := seenUrls;
      LinksEnds(config, links, known);
      for i := 0 to |links|
        invariant known == seenUrls + set u | u in unseen
        invariant unseen + NewLinks(config, links[i..], known) == NewLinks(config, links, seenUrls)
      {
        var link := links[i];
        LinksStep(config, links, i, known);
        assert link in known <==> link in seenUrls || link in unseen;
        if link !in seenUrls && link !in unseen && config.allowed(link) {
          assert unseen + ([link] + NewLinks(config, links[i + 1..], known + {link}))
              == (unseen + [link]) + NewLinks(config, links[i + 1..], known + {link});
          unseen := unseen + [link];
          known := known + {link};
        }
      }
      LinksEnds(config, links, known);
    }

    /** The response is released and the item is done. */
    method Release(w: Worker)
      requires Valid() && Enabled(Value(), Event.Release(w))
      modifies this
      ensures Valid() && Value() == Next(config, old(Value()), Event.Release(w))
    {
      releasing, unfinished := releasing - {w}, unfinished - 1;
    }
  }
}
