/** The client's paged reads, LIST and GET: retries, reassembly, and what they return from which peer. */
module Paging {
  import opened Bytes
  import opened Wire
  import Spec = ProtocolSpec
  import A = AuthSpec
  import T = Transfers
  import L = LossyLink
  import X = Exchanges
  import S = StaticSpec

  /** One read from the link: a 32-byte report, or a report of another length. */
  datatype Read = Report(frame: Frame) | WrongLength

  /** Lost stands for a timeout or a failed write or read. */
  datatype Failure = Lost | Malformed | Refused(status: byte)

  datatype Result<+T> = Got(value: T) | Failed(why: Failure)

  /**
   * What sits at the other end: anything at all, given by what arrives before the deadline of the n-th exchange and its
   * request, or the device over the lossy link.
   */
  datatype Peer =
    | Script(answers: (nat, Frame) -> seq<Read>, n: nat)
    | Linked(c: Spec.Config, link: nat -> X.Trial, world: L.World, n: nat)

  predicate PeerOk(p: Peer) {
    p.Linked? ==> L.WorldOk(p.c, p.world)
  }

  /** What the client hears after a request, and the peer afterwards. Over the link, older answers are passed over. */
  function Hear(p: Peer, req: Frame): (h: (seq<Read>, Peer))
    requires PeerOk(p)
    ensures PeerOk(h.1)
  {
    match p
    case Script(answers, n) => (answers(n, req), Script(answers, n + 1))
    case Linked(c, link, world, n) =>
      var (w, reply) := X.Exchanged(c, world, req, link(n));
      (if reply.Some? then [Report(reply.value)] else [], Linked(c, link, w, n + 1))
  }

  /** No answer to the request was heard, and nothing malformed. */
  predicate Silent(heard: seq<Read>, req: Frame) {
    forall i | 0 <= i < |heard| :: heard[i].Report? && !X.Matches(heard[i].frame, req)
  }

  /** The i-th read is the first that is not an answer to some other request. */
  predicate FirstAt(heard: seq<Read>, req: Frame, i: nat) {
    i < |heard| && Silent(heard[..i], req) && (heard[i].Report? ==> X.Matches(heard[i].frame, req))
  }

  /** The page of `data` that a canonical read at `offset` asks for. */
  function PageAt(data: seq<byte>, offset: nat): seq<byte>
    requires offset <= |data|
  {
    data[offset..if |data| - offset > 22 then offset + 22 else |data|]
  }

  function ReadAt(op: byte, rid: byte, slot: byte, offset: u16): Frame {
    BuildFrame(op, rid, slot, [], offset, 0)
  }

  /** Everything heard is well-formed, and whatever answers the request is the page of data, or a refusal if that may be. */
  ghost predicate AnswersWith(heard: seq<Read>, req: Frame, page: Response, refusable: bool) {
    forall i | 0 <= i < |heard| ::
      heard[i].Report? && (X.Matches(heard[i].frame, req) ==>
        heard[i].frame == Encode(req, page)
        || (refusable && 1 <= heard[i].frame.status <= 15 && heard[i].frame == Encode(req, Err(heard[i].frame.status))))
  }

  /** A script whose answers to reads of (op, slot) are pages of `data`, among leftovers, or missing. */
  ghost predicate Serves(answers: (nat, Frame) -> seq<Read>, op: byte, slot: byte, data: seq<byte>)
    requires |data| < 0x1_0000
  {
    forall n, rid, offset: u16 {:trigger answers(n, ReadAt(op, rid, slot, offset))} ::
      var req := ReadAt(op, rid, slot, offset);
      AnswersWith(answers(n, req), req, Spec.Page(data, offset), false)
  }

  /**
   * The peer holds `data` as the object (op, slot). For the device over the link: nothing that writes is under way, and
   * every frame under way carries one of the m identifiers issued last.
   */
  ghost predicate Serving(p: Peer, next: byte, m: nat, op: byte, slot: byte, data: seq<byte>) {
    && PeerOk(p) && |data| < 0x1_0000
    && match p
       case Script(answers, _) => Serves(answers, op, slot, data)
       case Linked(c, _, w, _) =>
         L.NoWrites(w) && L.Recent(next, m, w) && T.JobOk(T.Page(op, slot, 0)) && (op == GET ==> slot < c.limits.count)
         && T.Object(c, w.dev, op, slot) == data
  }

  /** Only a device with a password may refuse. */
  predicate MayRefuse(p: Peer) {
    p.Linked? && p.world.dev.auth.state != A.Open
  }

  /** The peer's answers are never lost, and it has no reason to refuse. */
  ghost predicate Responsive(p: Peer, op: byte, slot: byte, data: seq<byte>)
    requires |data| < 0x1_0000
  {
    match p
    case Script(answers, _) =>
      forall n, rid, offset: u16 {:trigger answers(n, ReadAt(op, rid, slot, offset))} ::
        var req := ReadAt(op, rid, slot, offset);
        Report(Encode(req, Spec.Page(data, offset))) in answers(n, req)
    case Linked(c, link, w, n) =>
      w.requests == [] && w.responses == [] && (w.dev.auth.state == A.Open || w.dev.auth.session.Some?)
      && X.PromptFrom(c, T.Page(op, slot, 0), w.dev.auth, link, n)
  }

  lemma ReadsLeaveNoWrites(v: L.View, w: L.World)
    requires L.Live(v, w) && v.clean && v.j.Page?
    ensures L.NoWrites(w)
  {
    forall p | 0 <= p < |w.requests| ensures T.Bystander(w.requests[p]) {
      assert L.Harmless(v.j, w, p);
    }
  }

  /** After an answer nothing is under way. */
  lemma LinkedEmpties(p: Peer, next: byte, m: nat, op: byte, slot: byte, offset: u16, data: seq<byte>)
    requires p.Linked? && Serving(p, next, m, op, slot, data) && m < 256 && offset <= |data|
    ensures var (heard, q) := Hear(p, ReadAt(op, next, slot, offset));
            heard != [] ==> q.world.requests == [] && q.world.responses == []
  {
    var j, w := T.Page(op, slot, offset), p.world;
    X.NewIdentifier(next, m, w);
    X.ExchangeKeepsLive(L.View(p.c, j, w, false, false, next, 0), w, p.link(p.n), (next + 1) % 256, m + 1);
  }

  /** A read leaves a linked peer serving the same object. */
  lemma LinkedKeepsServing(p: Peer, next: byte, m: nat, op: byte, slot: byte, offset: u16, data: seq<byte>)
    requires p.Linked? && Serving(p, next, m, op, slot, data) && m < 256 && offset <= |data|
    ensures var q := Hear(p, ReadAt(op, next, slot, offset)).1;
            && Serving(q, (next + 1) % 256, m + 1, op, slot, data)
            && (q.world.dev.auth.state == A.Open <==> p.world.dev.auth.state == A.Open)
  {
    var j, w, t := T.Page(op, slot, offset), p.world, p.link(p.n);
    var v := L.View(p.c, j, w, true, false, next, 0);
    X.NewIdentifier(next, m, w);
    assert forall i | 0 <= i < |w.requests| :: L.Harmless(j, w, i);
    X.ExchangeKeepsLive(v, w, t, (next + 1) % 256, m + 1);
    ReadsLeaveNoWrites(v, X.Exchanged(p.c, w, T.FrameOf(j, next, 0), t).0);
  }

  lemma LinkedAnswers(p: Peer, next: byte, m: nat, op: byte, slot: byte, offset: u16, data: seq<byte>)
    requires p.Linked? && Serving(p, next, m, op, slot, data) && m < 256 && offset <= |data|
    ensures var req := ReadAt(op, next, slot, offset);
            var (w, reply) := X.Exchanged(p.c, p.world, req, p.link(p.n));
            reply.Some? ==>
              || reply.value == Encode(req, Spec.Page(T.Object(p.c, w.dev, op, slot), offset))
              || (1 <= reply.value.status <= 15 && reply.value == Encode(req, Err(reply.value.status))
                  && L.NoPage(p.c, T.Page(op, slot, offset), w.dev))
  {
    var j, w := T.Page(op, slot, offset), p.world;
    X.NewIdentifier(next, m, w);
    X.ExchangeKeepsLive(L.View(p.c, j, w, false, false, next, 0), w, p.link(p.n), (next + 1) % 256, m + 1);
  }

  /** Over the link: what is read as the answer to a read is the page of the object the device holds, or a refusal. */
  lemma LinkedHears(p: Peer, next: byte, m: nat, op: byte, slot: byte, offset: u16, data: seq<byte>)
    requires p.Linked? && Serving(p, next, m, op, slot, data) && m < 256 && offset <= |data|
    ensures var req := ReadAt(op, next, slot, offset);
            var (heard, q) := Hear(p, req);
            && Serving(q, (next + 1) % 256, if heard == [] then m + 1 else 0, op, slot, data)
            && (q.world.dev.auth.state == A.Open <==> p.world.dev.auth.state == A.Open)
            && AnswersWith(heard, req, Spec.Page(data, offset), MayRefuse(q))
  {
    LinkedKeepsServing(p, next, m, op, slot, offset, data);
    LinkedEmpties(p, next, m, op, slot, offset, data);
    LinkedAnswers(p, next, m, op, slot, offset, data);
  }

  lemma PromptPage(p: Peer, next: byte, op: byte, slot: byte, offset: u16, data: seq<byte>)
    requires p.Linked? && L.WorldOk(p.c, p.world) && T.JobOk(T.Page(op, slot, 0)) && (op == GET ==> slot < p.c.limits.count)
    requires T.Object(p.c, p.world.dev, op, slot) == data && offset <= |data| && |data| < 0x1_0000 && Responsive(p, op, slot, data)
    ensures var req := ReadAt(op, next, slot, offset);
            var (heard, q) := Hear(p, req);
            && heard == [Report(Encode(req, Spec.Page(T.Object(p.c, q.world.dev, op, slot), offset)))]
            && q.world.dev.auth.session == T.Deadline(p.c, T.Page(op, slot, 0), p.world.dev.auth, X.EnvOf(T.Page(op, slot, 0), p.link(p.n)))
  {
    var v := L.View(p.c, T.Page(op, slot, offset), p.world, true, false, next, 0);
    assert X.Prompt(T.Page(op, slot, 0), p.link(p.n));
    X.PromptExchange(v, p.world, p.link(p.n));
  }

  lemma LinkedPaces(p: Peer, q: Peer, op: byte, slot: byte, data: seq<byte>)
    requires p.Linked? && |data| < 0x1_0000 && Responsive(p, op, slot, data)
    requires q.Linked? && q == Linked(p.c, p.link, q.world, p.n + 1) && q.world.requests == [] && q.world.responses == []
    requires q.world.dev.auth.state == A.Open <==> p.world.dev.auth.state == A.Open
    requires q.world.dev.auth.session == T.Deadline(p.c, T.Page(op, slot, 0), p.world.dev.auth, X.EnvOf(T.Page(op, slot, 0), p.link(p.n)))
    ensures Responsive(q, op, slot, data)
  {
    X.PromptGoesOn(p.c, T.Page(op, slot, 0), p.world.dev.auth, q.world.dev.auth, p.link, p.n);
  }

  lemma LinkedResponds(p: Peer, next: byte, m: nat, op: byte, slot: byte, offset: u16, data: seq<byte>)
    requires p.Linked? && Serving(p, next, m, op, slot, data) && m < 256 && offset <= |data| && Responsive(p, op, slot, data)
    ensures var req := ReadAt(op, next, slot, offset);
            var (heard, q) := Hear(p, req);
            heard == [Report(Encode(req, Spec.Page(data, offset)))] && Responsive(q, op, slot, data)
  {
    PromptPage(p, next, op, slot, offset, data);
    LinkedKeepsServing(p, next, m, op, slot, offset, data);
    LinkedEmpties(p, next, m, op, slot, offset, data);
    LinkedPaces(p, Hear(p, ReadAt(op, next, slot, offset)).1, op, slot, data);
  }

  /** What the client makes of an answer to a read. */
  lemma AnswerIsPage(heard: seq<Read>, req: Frame, offset: u16, data: seq<byte>, refusable: bool, f: Frame)
    requires |data| < 0x1_0000 && offset <= |data| && AnswersWith(heard, req, Spec.Page(data, offset), refusable)
    requires Report(f) in heard && X.Matches(f, req)
    ensures match ValidateResponse(f, req)
            case ProtocolError => false
            case RemoteError(_) => refusable
            case Accepted(_) => f.status == 0 && f.plen <= 22 && f.offset == offset && f.total == |data| && f.Data() == PageAt(data, offset)
  {
    EncodeIsAccepted(req, Spec.Page(data, offset));
  }

  /** Either peer, after a read under the next identifier. */
  lemma PeerHears(p: Peer, next: byte, m: nat, op: byte, slot: byte, offset: u16, data: seq<byte>)
    requires Serving(p, next, m, op, slot, data) && m < 256 && offset <= |data|
    ensures var req := ReadAt(op, next, slot, offset);
            var (heard, q) := Hear(p, req);
            && Serving(q, (next + 1) % 256, if Silent(heard, req) then m + 1 else 0, op, slot, data)
            && MayRefuse(q) == MayRefuse(p) && AnswersWith(heard, req, Spec.Page(data, offset), MayRefuse(q))
  {
    var req := ReadAt(op, next, slot, offset);
    if p.Linked? {
      LinkedHears(p, next, m, op, slot, offset, data);
      LinkedHearsAnAnswer(p, req);
    } else {
      EncodeIsAccepted(req, Spec.Page(data, offset));
    }
  }

  /** A responsive peer answers with the page, and stays responsive. */
  lemma PeerResponds(p: Peer, next: byte, m: nat, op: byte, slot: byte, offset: u16, data: seq<byte>)
    requires Serving(p, next, m, op, slot, data) && m < 256 && offset <= |data| && Responsive(p, op, slot, data)
    ensures var req := ReadAt(op, next, slot, offset);
            var (heard, q) := Hear(p, req);
            Responsive(q, op, slot, data) && !Silent(heard, req) && AnswersWith(heard, req, Spec.Page(data, offset), false)
  {
    var req := ReadAt(op, next, slot, offset);
    EncodeIsAccepted(req, Spec.Page(data, offset));
    if p.Linked? {
      LinkedResponds(p, next, m, op, slot, offset, data);
      assert Hear(p, req).0[0] == Report(Encode(req, Spec.Page(data, offset)));
    } else {
      assert Report(Encode(req, Spec.Page(data, offset))) in p.answers(p.n, req);
    }
  }

  /** Over the link the client hears an answer or nothing. */
  lemma LinkedHearsAnAnswer(p: Peer, req: Frame)
    requires p.Linked? && PeerOk(p)
    ensures var heard := Hear(p, req).0; Silent(heard, req) <==> heard == []
  {
    var u := if p.link(p.n).written then X.Sent(p.world, req) else p.world;
    ListenedMatches(p.c, u, req, p.link(p.n).rounds);
    var reply := X.Exchanged(p.c, p.world, req, p.link(p.n)).1;
    assert reply.Some? ==> X.Matches(reply.value, req);
    if reply.Some? {
      assert Hear(p, req).0[0] == Report(reply.value);
    }
  }

  lemma {:induction false} ListenedMatches(c: Spec.Config, w: L.World, f: Frame, rounds: seq<seq<L.Event>>)
    requires L.WorldOk(c, w)
    ensures var reply := X.Listened(c, w, f, rounds).1; reply.Some? ==> X.Matches(reply.value, f)
    decreases |rounds|
  {
    if rounds != [] {
      var u := X.HappenAll(c, w, rounds[0]);
      if u.responses != [] {
        ListenedMatches(c, X.Popped(u), f, rounds[1..]);
      }
    }
  }

  /** The client has read a prefix of data and knows its length. */
  predicate ReadSoFar(result: seq<byte>, total: Option<u16>, data: seq<byte>) {
    |result| <= |data| && result == data[..|result|] && (total.Some? ==> total.value == |data|)
  }

  lemma NextPage(result: seq<byte>, total: Option<u16>, data: seq<byte>, f: Frame)
    requires |data| < 0x1_0000 && ReadSoFar(result, total, data) && f.plen <= 22
    requires f.offset == |result| && f.total == |data| && f.Data() == PageAt(data, |result|)
    ensures ReadSoFar(result + f.Data(), Some(f.total), data) && !Misplaced(result, total, f)
  {
  }

  /** The lengths in a flattened list. */
  function Decoded(d: seq<byte>): Result<seq<u16>> {
    var n: int := if |d| < 1 then 0 else d[0];
    if |d| != 1 + 2 * n then Failed(Malformed) else Got(seq(d[0], i requires 0 <= i < d[0] => U16(d[1 + 2 * i], d[2 + 2 * i])))
  }

  /** The payloads of the pages, one after the other. */
  function Joined(pages: seq<Frame>): seq<byte>
    requires forall i | 0 <= i < |pages| :: pages[i].plen <= 22
  {
    if pages == [] then [] else Joined(pages[..|pages| - 1]) + pages[|pages| - 1].Data()
  }

  /** The pages follow each other without a gap, and all of them announce the same total. */
  predicate InARow(pages: seq<Frame>, total: u16) {
    && (forall i | 0 <= i < |pages| :: pages[i].plen <= 22 && pages[i].status == 0 && pages[i].total == total)
    && forall i | 0 <= i < |pages| :: pages[i].offset == |Joined(pages[..i])|
  }

  lemma OneMorePage(pages: seq<Frame>, total: u16, f: Frame)
    requires InARow(pages, total) && f.plen <= 22 && f.status == 0 && f.total == total && f.offset == |Joined(pages)|
    ensures InARow(pages + [f], total) && Joined(pages + [f]) == Joined(pages) + f.Data()
  {
    var all := pages + [f];
    assert all[..|pages|] == pages;
    forall i | 0 <= i < |pages| ensures all[..i] == pages[..i] {
    }
  }

  /** The page does not begin where the last one ended, changes the total, goes beyond it or makes no progress. */
  predicate Misplaced(result: seq<byte>, total: Option<u16>, f: Frame) {
    f.offset != |result| || (total.Some? && total.value != f.total) || f.offset + f.plen > f.total
    || (f.total > 0 && f.offset < f.total && f.plen == 0)
  }

  /** What has been read so far are pages in a row under the total. */
  predicate Gathered(result: seq<byte>, total: Option<u16>, pages: seq<Frame>) {
    match total
    case None => result == [] && pages == []
    case Some(n) => |result| <= n && pages != [] && InARow(pages, n) && result == Joined(pages)
  }

  lemma Gathers(result: seq<byte>, total: Option<u16>, pages: seq<Frame>, f: Frame)
    requires Gathered(result, total, pages) && !Misplaced(result, total, f) && f.plen <= 22 && f.status == 0
    ensures Gathered(result + f.Data(), Some(f.total), pages + [f]) && (f.total > 0 && |result| < f.total ==> f.plen > 0)
  {
    OneMorePage(pages, f.total, f);
  }

  lemma Behind(x: byte, l: seq<byte>, k: nat)
    requires k < |l|
    ensures ([x] + l)[1 + k] == l[k]
  {
  }

  lemma LengthAt(slots: seq<S.Text>, d: seq<byte>, i: nat)
    requires i < |slots| <= 16 && (forall j | 0 <= j < |slots| :: |slots[j]| <= 256)
    requires d == [|slots|] + Spec.Lengths(slots)
    ensures |d| == 1 + 2 * |slots| && U16(d[1 + 2 * i], d[2 + 2 * i]) == |slots[i]|
  {
    var n, k := |slots[i]|, 2 * i;
    Behind(|slots|, Spec.Lengths(slots), k);
    Behind(|slots|, Spec.Lengths(slots), k + 1);
    assert d[1 + k] == Lo(n) && d[2 + k] == Hi(n);
    U16RoundTrip(n, 0, 0);
  }

  lemma LengthsInPairs(slots: seq<S.Text>, d: seq<byte>)
    requires |slots| <= 16 && (forall i | 0 <= i < |slots| :: |slots[i]| <= 256)
    requires d == [|slots|] + Spec.Lengths(slots)
    ensures |d| == 1 + 2 * |slots| && d[0] == |slots|
    ensures forall i | 0 <= i < |slots| :: U16(d[1 + 2 * i], d[2 + 2 * i]) == |slots[i]|
  {
    forall i | 0 <= i < |slots| ensures U16(d[1 + 2 * i], d[2 + 2 * i]) == |slots[i]| {
      LengthAt(slots, d, i);
    }
  }

  /** The flattened list of lengths splits into its pairs of bytes again. */
  lemma LengthsDecode(slots: seq<S.Text>, d: seq<byte>)
    requires |slots| <= 16 && (forall i | 0 <= i < |slots| :: |slots[i]| <= 256)
    requires d == [|slots|] + Spec.Lengths(slots)
    ensures match Decoded(d)
            case Got(lengths) => |lengths| == |slots| && forall i | 0 <= i < |slots| :: lengths[i] == |slots[i]|
            case Failed(_) => false
  {
    LengthsInPairs(slots, d);
  }

  // ------------------------------------------------------------------ the client

  /** What the client takes from a read: the first report that is not about some other request. */
  ghost predicate TakenFrom(heard: seq<Read>, req: Frame, r: Result<Frame>) {
    match r
    case Got(f) => exists i: nat :: FirstAt(heard, req, i) && heard[i] == Report(f)
    case Failed(why) => if Silent(heard, req) then why == Lost
                        else why == Malformed && exists i: nat :: FirstAt(heard, req, i) && heard[i] == WrongLength
  }

  /**
   * What the read of a page of data came to: the page, a loss, or a refusal that only a device with a password makes;
   * from a responsive peer, which stays responsive, the page.
   */
  ghost predicate ReadFrom(before: Peer, after: Peer, op: byte, slot: byte, offset: u16, data: seq<byte>, r: Result<Frame>)
    requires |data| < 0x1_0000 && offset <= |data|
  {
    && MayRefuse(after) == MayRefuse(before)
    && (match r
        case Got(f) => f.plen <= 22 && f.offset == offset && f.total == |data| && f.Data() == PageAt(data, offset)
        case Failed(why) => why == Lost || (why.Refused? && MayRefuse(after)))
    && (Responsive(before, op, slot, data) ==> r.Got? && Responsive(after, op, slot, data))
  }

  /** All of n reads were lost. */
  ghost predicate Lossy(before: Peer, after: Peer, op: byte, slot: byte, offset: u16, served: Option<seq<byte>>, n: nat)
    requires served.Some? ==> |served.value| < 0x1_0000 && offset <= |served.value|
  {
    && (n == 0 ==> after == before)
    && (n > 0 && served.Some? ==> ReadFrom(before, after, op, slot, offset, served.value, Failed(Lost)))
  }

  lemma AfterLosses(before: Peer, mid: Peer, after: Peer, op: byte, slot: byte, offset: u16, served: Option<seq<byte>>, n: nat,
                    r: Result<Frame>)
    requires served.Some? ==> |served.value| < 0x1_0000 && offset <= |served.value|
    requires Lossy(before, mid, op, slot, offset, served, n)
    requires served.Some? ==> ReadFrom(mid, after, op, slot, offset, served.value, r)
    ensures served.Some? ==> ReadFrom(before, after, op, slot, offset, served.value, r)
    ensures r == Failed(Lost) ==> Lossy(before, after, op, slot, offset, served, n + 1)
  {
  }

  /** The client's checks on the answer to a read. */
  function Checked(r: Result<Frame>, req: Frame): Result<Frame> {
    if r.Failed? then r
    else match ValidateResponse(r.value, req)
      case ProtocolError => Failed(Malformed)
      case RemoteError(status) => Failed(Refused(status))
      case Accepted(_) => r
  }

  /** An answer from a peer that serves the object is the page asked for, or a refusal. */
  lemma CheckedIsPage(heard: seq<Read>, req: Frame, offset: u16, data: seq<byte>, refusable: bool, r: Result<Frame>)
    requires |data| < 0x1_0000 && offset <= |data| && AnswersWith(heard, req, Spec.Page(data, offset), refusable)
    requires TakenFrom(heard, req, r)
    ensures match Checked(r, req)
            case Got(f) => f.offset == offset && f.total == |data| && f.Data() == PageAt(data, offset)
            case Failed(why) => why == Lost || (why.Refused? && refusable)
  {
    if r.Got? {
      AnswerIsPage(heard, req, offset, data, refusable, r.value);
    }
  }

  lemma CheckedIsSound(heard: seq<Read>, req: Frame, r: Result<Frame>)
    requires TakenFrom(heard, req, r)
    ensures Checked(r, req).Got? ==> r.Got? && r.value.status == 0 && r.value.plen <= 22 && !Silent(heard, req)
    ensures Checked(r, req) == Failed(Lost) <==> Silent(heard, req)
  {
  }

  /** The n-th identifier after rid. */
  function After(rid: byte, n: nat): byte {
    if n == 0 then rid else (After(rid, n - 1) + 1) % 256
  }

  /** The same read n times, under n identifiers in a row. */
  function Tries(op: byte, slot: byte, offset: u16, rid: byte, n: nat): seq<Frame> {
    if n == 0 then [] else Tries(op, slot, offset, rid, n - 1) + [ReadAt(op, After(rid, n - 1), slot, offset)]
  }

  /** From log0 to log the read was tried n times, and `next` is the identifier after those. */
  predicate Tried(log0: seq<Frame>, log: seq<Frame>, op: byte, slot: byte, offset: u16, rid: byte, next: byte, n: nat) {
    log == log0 + Tries(op, slot, offset, rid, n) && next == After(rid, n)
  }

  lemma TriedAgain(log0: seq<Frame>, log: seq<Frame>, op: byte, slot: byte, offset: u16, rid: byte, next: byte, n: nat)
    requires Tried(log0, log, op, slot, offset, rid, next, n)
    ensures Tried(log0, log + [ReadAt(op, next, slot, offset)], op, slot, offset, rid, (next + 1) % 256, n + 1)
  {
  }

  lemma NextModulo(x: nat)
    ensures (x % 256 + 1) % 256 == (x + 1) % 256
  {
  }

  lemma {:induction false} AfterIsSum(rid: byte, n: nat)
    ensures After(rid, n) == (rid + n) % 256
  {
    if n > 0 {
      AfterIsSum(rid, n - 1);
      NextModulo(rid + n - 1);
    }
  }

  lemma DifferentModulo(x: nat, y: nat)
    requires x < y < x + 256
    ensures x % 256 != y % 256
  {
  }

  /** Up to 256 tries of one read are different requests. */
  lemma {:induction false} TriesDiffer(op: byte, slot: byte, offset: u16, rid: byte, n: nat, i: nat, j: nat)
    requires i < j < n <= 256
    ensures var tries := Tries(op, slot, offset, rid, n);
            |tries| == n && tries[i] == ReadAt(op, After(rid, i), slot, offset) && tries[i].rid != tries[j].rid
  {
    TryAt(op, slot, offset, rid, n, i);
    TryAt(op, slot, offset, rid, n, j);
    AfterIsSum(rid, i);
    AfterIsSum(rid, j);
    DifferentModulo(rid + i, rid + j);
  }

  lemma {:induction false} TryAt(op: byte, slot: byte, offset: u16, rid: byte, n: nat, i: nat)
    requires i < n
    ensures |Tries(op, slot, offset, rid, n)| == n && Tries(op, slot, offset, rid, n)[i] == ReadAt(op, After(rid, i), slot, offset)
  {
    if n > 1 {
      TryAt(op, slot, offset, rid, n - 1, if i < n - 1 then i else 0);
    }
  }

  lemma ServingLonger(p: Peer, next: byte, m: nat, m': nat, op: byte, slot: byte, data: seq<byte>)
    requires Serving(p, next, m, op, slot, data) && m <= m'
    ensures Serving(p, next, m', op, slot, data)
  {
  }

  /** One try of a read from a peer that serves the object. */
  lemma TryReads(p: Peer, next: byte, m: nat, op: byte, slot: byte, offset: u16, data: seq<byte>, answer: Result<Frame>)
    requires Serving(p, next, m, op, slot, data) && m < 256 && offset <= |data|
    requires TakenFrom(Hear(p, ReadAt(op, next, slot, offset)).0, ReadAt(op, next, slot, offset), answer)
    ensures var q, r := Hear(p, ReadAt(op, next, slot, offset)).1, Checked(answer, ReadAt(op, next, slot, offset));
            ReadFrom(p, q, op, slot, offset, data, r) && Serving(q, (next + 1) % 256, if r.Got? then 0 else m + 1, op, slot, data)
  {
    var req := ReadAt(op, next, slot, offset);
    var (heard, q) := Hear(p, req);
    PeerHears(p, next, m, op, slot, offset, data);
    CheckedIsSound(heard, req, answer);
    CheckedIsPage(heard, req, offset, data, MayRefuse(q), answer);
    if Responsive(p, op, slot, data) {
      PeerResponds(p, next, m, op, slot, offset, data);
      CheckedIsPage(heard, req, offset, data, false, answer);
    }
    if !Silent(heard, req) {
      ServingLonger(q, (next + 1) % 256, 0, m + 1, op, slot, data);
    }
  }

  class Client {
    const retries: nat
    var nextRid: byte
    var peer: Peer
    /** How many exchanges ended without an answer. */
    ghost var silences: nat
    /** The requests so far. */
    ghost var asked: seq<Frame>

    constructor (retries: nat, peer: Peer)
      ensures this.retries == retries && this.peer == peer && nextRid == 0
    {
      this.retries, this.peer := retries, peer;
      nextRid, silences, asked := 0, 0, [];
    }

    method RequestId() returns (rid: byte)
      modifies this`nextRid
      ensures rid == old(nextRid) && nextRid == (rid + 1) % 256
    {
      rid := nextRid;
      nextRid := (nextRid + 1) % 256;
    }

    /** Take the first read that is not an answer to some other request; lost if there is none. */
    method Exchange(req: Frame) returns (r: Result<Frame>)
      requires PeerOk(peer)
      modifies this`peer, this`silences, this`asked
      ensures peer == Hear(old(peer), req).1 && asked == old(asked) + [req]
      ensures TakenFrom(Hear(old(peer), req).0, req, r)
      ensures r.Got? ==> r.value.rid == req.rid && r.value.op == req.op && r.value.slot == req.slot
      ensures r == Failed(Lost) ==>
                forall f | Report(f) in Hear(old(peer), req).0 :: f.rid != req.rid || f.op != req.op || f.slot != req.slot
      ensures silences == if r == Failed(Lost) then old(silences) + 1 else old(silences)
    {
      var heard: seq<Read>;
      asked := asked + [req];
      heard, peer := Hear(peer, req).0, Hear(peer, req).1;
      for i := 0 to |heard|
        invariant Silent(heard[..i], req)
      {
        match heard[i] {
          case WrongLength =>
            assert FirstAt(heard, req, i);
            return Failed(Malformed);
          case Report(f) =>
            if X.Matches(f, req) {
              assert FirstAt(heard, req, i);
              return Got(f);
            }
        }
      }
      assert heard[..|heard|] == heard;
      silences := silences + 1;
      return Failed(Lost);
    }

    /** What the peer serves, if it serves the object faithfully. */
    ghost predicate Faithful(m: nat, op: byte, slot: byte, served: Option<seq<byte>>)
      reads this`peer, this`nextRid
    {
      PeerOk(peer) && (served.Some? ==> Serving(peer, nextRid, m, op, slot, served.value))
    }

    /** One try under a new identifier. */
    method TryRead(op: byte, slot: byte, offset: u16, ghost served: Option<seq<byte>>, ghost m: nat) returns (r: Result<Frame>)
      requires Faithful(m, op, slot, served) && m < 256 && (served.Some? ==> offset <= |served.value|)
      modifies this`nextRid, this`peer, this`silences, this`asked
      ensures Faithful(if r.Got? then 0 else m + 1, op, slot, served) && nextRid == (old(nextRid) + 1) % 256
      ensures asked == old(asked) + [ReadAt(op, old(nextRid), slot, offset)]
      ensures r.Got? ==> r.value.status == 0 && r.value.plen <= 22
      ensures served.Some? ==> ReadFrom(old(peer), peer, op, slot, offset, served.value, r)
      ensures silences == if r == Failed(Lost) then old(silences) + 1 else old(silences)
    {
      var rid := RequestId();
      var req := ReadAt(op, rid, slot, offset);
      ghost var heard := Hear(peer, req).0;
      ghost var before := peer;
      var answer := Exchange(req);
      CheckedIsSound(heard, req, answer);
      if served.Some? {
        TryReads(before, rid, m, op, slot, offset, served.value, answer);
      }
      r := Checked(answer, req);
    }

    /** One read with retries: every try is a new request, and only a lost one is tried again. */
    method Call(op: byte, slot: byte, offset: u16, ghost served: Option<seq<byte>>, ghost m: nat)
      returns (r: Result<Frame>, ghost tries: nat)
      requires Faithful(m, op, slot, served) && m + retries < 256 && (served.Some? ==> offset <= |served.value|)
      modifies this`nextRid, this`peer, this`silences, this`asked
      ensures PeerOk(peer) && (r.Got? ==> Faithful(0, op, slot, served))
      ensures r.Got? ==> r.value.status == 0 && r.value.plen <= 22
      ensures served.Some? ==> ReadFrom(old(peer), peer, op, slot, offset, served.value, r)
      ensures 1 <= tries <= retries + 1 && (r == Failed(Lost) ==> tries == retries + 1)
      ensures Tried(old(asked), asked, op, slot, offset, old(nextRid), nextRid, tries)
      ensures silences == old(silences) + if r == Failed(Lost) then tries else tries - 1
    {
      for i := 0 to retries + 1
        invariant Faithful(m + i, op, slot, served) && silences == old(silences) + i
        invariant Tried(old(asked), asked, op, slot, offset, old(nextRid), nextRid, i)
        invariant Lossy(old(peer), peer, op, slot, offset, served, i)
      {
        ghost var before := peer;
        TriedAgain(old(asked), asked, op, slot, offset, old(nextRid), nextRid, i);
        r := TryRead(op, slot, offset, served, m + i);
        tries := i + 1;
        AfterLosses(old(peer), before, peer, op, slot, offset, served, i, r);
        if r != Failed(Lost) {
          return;
        }
      }
      return Failed(Lost), retries + 1;
    }

    /**
     * Read a whole object page by page: what is returned are pages in a row under one total. It ends whatever the peer is,
     * since each page but the last makes progress towards a total that may not change.
     */
    method Fetch(op: byte, slot: byte, ghost served: Option<seq<byte>>, ghost m: nat)
      returns (r: Result<seq<byte>>, ghost pages: seq<Frame>)
      requires Faithful(m, op, slot, served) && m + retries < 256
      modifies this`nextRid, this`peer, this`silences, this`asked
      ensures r.Got? ==> |r.value| < 0x1_0000 && pages != [] && InARow(pages, |r.value|) && r.value == Joined(pages)
      ensures served.Some? ==> r == Got(served.value) || r == Failed(Lost) || (r.Failed? && r.why.Refused? && MayRefuse(old(peer)))
      ensures served.Some? && Responsive(old(peer), op, slot, served.value) ==> r == Got(served.value)
      ensures r == Failed(Lost) ==> silences >= old(silences) + retries + 1
    {
      var total: Option<u16> := None;
      var result: seq<byte> := [];
      ghost var age: nat := m;
      ghost var willing := served.Some? && Responsive(peer, op, slot, served.value);
      pages := [];
      while total.None? || |result| < total.value
        invariant Gathered(result, total, pages)
        invariant Faithful(age, op, slot, served) && age + retries < 256 && silences >= old(silences)
        invariant served.Some? ==> ReadSoFar(result, total, served.value) && MayRefuse(peer) == MayRefuse(old(peer))
        invariant willing ==> Responsive(peer, op, slot, served.value)
        decreases if total.None? then 0x1_0000 else total.value - |result|
      {
        var page, tries := Call(op, slot, |result|, served, age);
        if page.Failed? {
          return Failed(page.why), pages;
        }
        age := 0;
        var f := page.value;
        if served.Some? {
          NextPage(result, total, served.value, f);
        }
        if Misplaced(result, total, f) {
          return Failed(Malformed), pages;
        }
        Gathers(result, total, pages, f);
        pages := pages + [f];
        total := Some(f.total);
        result := result + f.Data();
        if f.total == 0 {
          break;
        }
      }
      assert served.Some? ==> served.value[..|served.value|] == served.value;
      return Got(result), pages;
    }

    /**
     * get_slot. A peer that serves the text yields exactly the text, or a failure that was a loss of every try of one
     * request, or a refusal that only a device with a password makes; when nothing is lost or refused it yields the text.
     */
    method GetSlot(slot: byte, ghost text: Option<seq<byte>>, ghost m: nat) returns (r: Result<seq<byte>>)
      requires slot != LIST_SLOT && Faithful(m, GET, slot, text) && m + retries < 256
      modifies this`nextRid, this`peer, this`silences, this`asked
      ensures r.Got? ==> TextOk(r.value)
      ensures text.Some? && TextOk(text.value) ==>
                r == Got(text.value) || r == Failed(Lost) || (r.Failed? && r.why.Refused? && MayRefuse(old(peer)))
      ensures text.Some? && TextOk(text.value) && Responsive(old(peer), GET, slot, text.value) ==> r == Got(text.value)
      ensures r == Failed(Lost) ==> silences >= old(silences) + retries + 1
    {
      ghost var pages;
      r, pages := Fetch(GET, slot, text, m);
      if r.Got? && !TextOk(r.value) {
        return Failed(Malformed);
      }
    }

    /** list_slots: the same for the lengths of all slots. */
    method ListSlots(ghost slots: Option<seq<S.Text>>, ghost m: nat) returns (r: Result<seq<u16>>)
      requires slots.Some? ==> |slots.value| <= 16 && forall i | 0 <= i < |slots.value| :: |slots.value[i]| <= 256
      requires Faithful(m, LIST, LIST_SLOT, if slots.Some? then Some([|slots.value|] + Spec.Lengths(slots.value)) else None)
      requires m + retries < 256
      modifies this`nextRid, this`peer, this`silences, this`asked
      ensures slots.Some? ==>
                match r
                case Got(lengths) => |lengths| == |slots.value| && forall i | 0 <= i < |lengths| :: lengths[i] == |slots.value[i]|
                case Failed(why) => why == Lost || (why.Refused? && MayRefuse(old(peer)))
      ensures slots.Some? && Responsive(old(peer), LIST, LIST_SLOT, [|slots.value|] + Spec.Lengths(slots.value)) ==> r.Got?
      ensures r == Failed(Lost) ==> silences >= old(silences) + retries + 1
    {
      ghost var served := if slots.Some? then Some([|slots.value|] + Spec.Lengths(slots.value)) else None;
      var data, pages := Fetch(LIST, LIST_SLOT, served, m);
      if data.Failed? {
        return Failed(data.why);
      }
      if slots.Some? {
        LengthsDecode(slots.value, data.value);
      }
      return Decoded(data.value);
    }
  }
}
