/**
 Reconciliation of servers and snapshot images into Applications
 (src/utils/application.rs). The process-wide id counter is threaded
 through every operation explicitly: a counter goes in, the bumped counter
 comes out.
 */
module Application {
  import opened Wrappers
  import Format

  /**
   A lifecycle status of the API client's models. The code only ever
   renders it with `{:?}`, which for a field-less enum prints the variant
   name, so the variant name is all the model keeps.
   */
  datatype Status = Status(variant: string)

  /** `format!("{:?}", status)` */
  function Debug(s: Status): string {
    s.variant
  }

  /** A server, abstracted to the two fields reconciliation reads. */
  datatype Server = Server(name: string, status: Status)

  datatype ImageType = Snapshot | Other

  /**
   An image, abstracted to its optional name, its type, its status and the
   name of the server it was created from, if any.
   */
  datatype Image = Image(name: Option<string>, kind: ImageType, status: Status, createdFrom: Option<string>)

  datatype Application = Application(
    id: nat,
    name: Option<string>,
    status: Option<string>,
    images: Option<seq<Image>>,
    servers: Option<seq<Server>>)

  predicate IsSnapshot(img: Image) {
    img.kind == Snapshot
  }

  /** The images an Application holds, with `None` read as none at all. */
  function ImagesOf(a: Application): seq<Image> {
    match a.images
    case None => []
    case Some(v) => v
  }

  /** The placeholder name of an Application seeded from an image without a name. */
  function Unnamed(id: nat): string {
    "unnamed " + Format.NatToString(id)
  }

  /** Distinct ids give distinct placeholder names. */
  lemma UnnamedInjective(a: nat, b: nat)
    ensures Unnamed(a) == Unnamed(b) ==> a == b
  {
    if Unnamed(a) == Unnamed(b) {
      var pre := "unnamed ";
      assert Format.NatToString(a) == Unnamed(a)[|pre|..];
      assert Format.NatToString(b) == Unnamed(b)[|pre|..];
      Format.NatToStringInjective(a, b);
    }
  }

  /**
   `get_id`: the current counter is the id, and the counter is bumped, as
   one atomic step (see `TwoGetIdsAtomic`).
   */
  function GetId(counter: nat): (r: (nat, nat))
    ensures r.1 == r.0 + 1
    ensures r.0 == counter
  {
    (counter, counter + 1)
  }

  /**
   `get_id` as written is two atomic steps, a `load` and then a
   `fetch_add` whose result is dropped. Two callers on different tasks
   whose loads both come before either bump draw the same id, while the
   counter still advances by two.
   */
  function TwoGetIdsLoadsFirst(counter: nat): (r: (nat, nat, nat))
    ensures r.0 == r.1
    ensures r.2 == counter + 2
  {
    var first := counter;
    var second := counter;
    var bumped := counter + 1;
    (first, second, bumped + 1)
  }

  /**
   `get_id` as one atomic `fetch_add` that returns the previous value,
   which is what `GetId` models: two callers get distinct ids in either
   order, and the counter advances by two.
   */
  function TwoGetIdsAtomic(counter: nat, firstGoesFirst: bool): (r: (nat, nat, nat))
    ensures r.0 != r.1
    ensures {r.0, r.1} == {counter, counter + 1}
    ensures r.2 == counter + 2
  {
    if firstGoesFirst then
      var (first, next) := GetId(counter);
      var (second, last) := GetId(next);
      (first, second, last)
    else
      var (second, next) := GetId(counter);
      var (first, last) := GetId(next);
      (first, second, last)
  }

  /** `Application::new`: a born id and every other field empty. */
  function New(counter: nat): (r: (Application, nat))
    ensures r.0.id == counter && r.1 == counter + 1
    ensures r.0.name.None? && r.0.status.None? && r.0.images.None? && r.0.servers.None?
  {
    var (id, next) := GetId(counter);
    (Application(id, None, None, None, None), next)
  }

  /** `with_server`: names the Application after the server and holds it as its only server. */
  function WithServer(a: Application, server: Server): (r: Application)
    ensures r.id == a.id && r.images == a.images
    ensures r.name == Some(server.name) && r.status == Some(Debug(server.status))
    ensures r.servers == Some([server])
  {
    a.(name := Some(server.name), status := Some(Debug(server.status)), servers := Some([server]))
  }

  /**
   `with_image`: names the Application after the image, or `"unnamed {id}"`
   when the image has none, and holds the image as its only image.
   */
  function WithImage(a: Application, img: Image): (r: Application)
    ensures r.id == a.id && r.servers == a.servers
    ensures img.name.Some? ==> r.name == img.name
    ensures img.name.None? ==> r.name == Some(Unnamed(a.id))
    ensures r.status == Some(Debug(img.status))
    ensures r.images == Some([img])
  {
    var name := match img.name
      case None => Unnamed(a.id)
      case Some(n) => n;
    a.(name := Some(name), status := Some(Debug(img.status)), images := Some([img]))
  }

  /**
   `add_image`: the image goes at the end of the Application's images, the
   images already there stay, and nothing else changes.
   */
  function AddImage(a: Application, img: Image): (r: Application)
    ensures ImagesOf(r) == ImagesOf(a) + [img]
    ensures r.images.Some?
    ensures r.(images := a.images) == a
  {
    match a.images
    case None => a.(images := Some([img]))
    case Some(v) => a.(images := Some(v + [img]))
  }

  /** The image names this Application as the server it was created from. */
  predicate Matches(a: Application, img: Image) {
    img.createdFrom.Some? && a.name == Some(img.createdFrom.value)
  }

  /**
   `is_image_related`: reports whether the image was created from a server
   of this Application's name and, when it was, adds the image to it.
   */
  function IsImageRelated(a: Application, img: Image): (r: (bool, Application))
    ensures r.0 <==> img.createdFrom.Some? && a.name.Some? && img.createdFrom.value == a.name.value
    ensures r.0 ==> r.1 == AddImage(a, img)
    ensures !r.0 ==> r.1 == a
  {
    match (img.createdFrom, a.name)
    case (None, _) => (false, a)
    case (Some(_), None) => (false, a)
    case (Some(source), Some(name)) =>
      if source == name then (true, AddImage(a, img)) else (false, a)
  }

  /**
   The inner loop over the Applications built so far. Its `continue` does
   not stop the scan, so the image is added to EVERY Application of the
   matching name; the flag says whether any matched.
   */
  function AttachAll(apps: seq<Application>, img: Image): (r: (seq<Application>, bool))
    ensures |r.0| == |apps|
    ensures r.1 <==> exists k :: 0 <= k < |apps| && Matches(apps[k], img)
    ensures forall k :: 0 <= k < |apps| ==>
      r.0[k] == (if Matches(apps[k], img) then AddImage(apps[k], img) else apps[k])
    decreases |apps|
  {
    if apps == [] then ([], false)
    else
      var (hit, head) := IsImageRelated(apps[0], img);
      var (tail, anyHit) := AttachAll(apps[1..], img);
      AttachCons(apps, img, hit, head, tail, anyHit);
      ([head] + tail, hit || anyHit)
  }

  /**
   The scan over a non-empty list: its head handled by `is_image_related`
   and its tail by the rest of the scan give the whole scan's result.
   */
  lemma AttachCons(apps: seq<Application>, img: Image, hit: bool, head: Application,
                   tail: seq<Application>, anyHit: bool)
    requires apps != []
    requires hit <==> Matches(apps[0], img)
    requires head == (if Matches(apps[0], img) then AddImage(apps[0], img) else apps[0])
    requires |tail| == |apps[1..]|
    requires anyHit <==> exists k :: 0 <= k < |apps[1..]| && Matches(apps[1..][k], img)
    requires forall k :: 0 <= k < |apps[1..]| ==>
      tail[k] == (if Matches(apps[1..][k], img) then AddImage(apps[1..][k], img) else apps[1..][k])
    ensures (hit || anyHit) <==> exists k :: 0 <= k < |apps| && Matches(apps[k], img)
    ensures forall k :: 0 <= k < |apps| ==>
      ([head] + tail)[k] == (if Matches(apps[k], img) then AddImage(apps[k], img) else apps[k])
  {
    forall k | 0 <= k < |apps|
      ensures ([head] + tail)[k] == (if Matches(apps[k], img) then AddImage(apps[k], img) else apps[k])
    {
      if k > 0 {
        assert apps[k] == apps[1..][k - 1];
      }
    }
    if anyHit {
      var j :| 0 <= j < |apps[1..]| && Matches(apps[1..][j], img);
      assert Matches(apps[j + 1], img);
    }
    if exists k :: 0 <= k < |apps| && Matches(apps[k], img) {
      var k :| 0 <= k < |apps| && Matches(apps[k], img);
      if k > 0 {
        assert Matches(apps[1..][k - 1], img);
      }
    }
  }

  /** The names the Applications built so far carry. */
  function Names(apps: seq<Application>): set<string> {
    set k | 0 <= k < |apps| && apps[k].name.Some? :: apps[k].name.value
  }

  /** Some Application built so far has the name the image was created from. */
  predicate Claimed(apps: seq<Application>, img: Image) {
    img.createdFrom.Some? && img.createdFrom.value in Names(apps)
  }

  lemma ClaimedIffSomeMatch(apps: seq<Application>, img: Image)
    ensures Claimed(apps, img) <==> exists k :: 0 <= k < |apps| && Matches(apps[k], img)
  {
    if Claimed(apps, img) {
      var k :| 0 <= k < |apps| && apps[k].name.Some? && apps[k].name.value == img.createdFrom.value;
      assert Matches(apps[k], img);
    }
  }

  /** The Application a server seeds: it carries the server and no image yet. */
  function ServerApp(id: nat, server: Server): Application {
    Application(id, Some(server.name), Some(Debug(server.status)), None, Some([server]))
  }

  /** The Application an unclaimed snapshot seeds: it carries the snapshot and no server. */
  function ImageApp(id: nat, img: Image): Application {
    var name := match img.name
      case None => Unnamed(id)
      case Some(n) => n;
    Application(id, Some(name), Some(Debug(img.status)), Some([img]), None)
  }

  /**
   One pass of the outer image loop. A non-snapshot is skipped; a snapshot
   some Application already claims is added to every such Application and
   creates nothing; any other snapshot seeds a new Application at the end.
   */
  function Step(apps: seq<Application>, counter: nat, img: Image): (r: (seq<Application>, nat))
    ensures !IsSnapshot(img) ==> r == (apps, counter)
    ensures IsSnapshot(img) && Claimed(apps, img) ==>
      && r.1 == counter
      && |r.0| == |apps|
      && forall k :: 0 <= k < |apps| ==>
           r.0[k] == (if Matches(apps[k], img) then AddImage(apps[k], img) else apps[k])
    ensures IsSnapshot(img) && !Claimed(apps, img) ==>
      r == (apps + [ImageApp(counter, img)], counter + 1)
  {
    ClaimedIffSomeMatch(apps, img);
    if img.kind != Snapshot then (apps, counter)
    else
      var (attached, anyMatched) := AttachAll(apps, img);
      if anyMatched then (attached, counter)
      else
        assert attached == apps;
        var (born, next) := New(counter);
        (attached + [WithImage(born, img)], next)
  }

  /** The outer loop over the images, in input order. */
  function ProcessImages(apps: seq<Application>, images: seq<Image>, counter: nat): (r: (seq<Application>, nat))
    decreases |images|
  {
    if images == [] then (apps, counter)
    else
      var (apps', counter') := Step(apps, counter, images[0]);
      ProcessImages(apps', images[1..], counter')
  }

  /** The first loop: one Application per server, in input order. */
  function SeedServers(servers: seq<Server>, counter: nat): (r: (seq<Application>, nat))
    ensures |r.0| == |servers|
    ensures r.1 == counter + |servers|
    ensures forall i :: 0 <= i < |servers| ==> r.0[i] == ServerApp(counter + i, servers[i])
    decreases |servers|
  {
    if servers == [] then ([], counter)
    else
      var (born, next) := New(counter);
      var (rest, last) := SeedServers(servers[1..], next);
      assert forall i :: 1 <= i < |servers| ==> servers[i] == servers[1..][i - 1];
      ([WithServer(born, servers[0])] + rest, last)
  }

  /** `generate_application_list`, returning the list and the advanced counter. */
  function GenerateApplicationList(servers: seq<Server>, images: seq<Image>, counter: nat): (r: (seq<Application>, nat))
  {
    var (seeded, next) := SeedServers(servers, counter);
    ProcessImages(seeded, images, next)
  }

  // ---------------------------------------------------------------------
  // Reference definition of the whole output
  // ---------------------------------------------------------------------

  /**
   The snapshots among `images` created from a server called `name`, in
   input order: the images an Application of that name collects.
   */
  function Matching(images: seq<Image>, name: Option<string>): seq<Image>
    decreases |images|
  {
    if images == [] then []
    else
      var img := images[0];
      (if IsSnapshot(img) && name.Some? && img.createdFrom == name then [img] else [])
        + Matching(images[1..], name)
  }

  /** `add_image` applied once per image, in order. */
  function AddAll(a: Application, imgs: seq<Image>): (r: Application)
    decreases |imgs|
  {
    if imgs == [] then a else AddAll(AddImage(a, imgs[0]), imgs[1..])
  }

  /** Adding several images appends them all, in order, and changes nothing else. */
  lemma {:induction false} AddAllAppends(a: Application, imgs: seq<Image>)
    ensures ImagesOf(AddAll(a, imgs)) == ImagesOf(a) + imgs
    ensures AddAll(a, imgs).(images := a.images) == a
    ensures imgs != [] ==> AddAll(a, imgs).images.Some?
    ensures imgs == [] ==> AddAll(a, imgs) == a
    decreases |imgs|
  {
    if imgs != [] {
      AddAllAppends(AddImage(a, imgs[0]), imgs[1..]);
      assert [imgs[0]] + imgs[1..] == imgs;
    }
  }

  /**
   The Applications the images seed, each built at once with every later
   snapshot that will join it, given the names already taken and the next
   id: a snapshot seeds one exactly when it is not claimed by a name taken
   before it.
   */
  function NewApps(names: set<string>, images: seq<Image>, next: nat): seq<Application>
    decreases |images|
  {
    if images == [] then []
    else
      var img := images[0];
      if !IsSnapshot(img) || (img.createdFrom.Some? && img.createdFrom.value in names) then
        NewApps(names, images[1..], next)
      else
        var seeded := ImageApp(next, img);
        [AddAll(seeded, Matching(images[1..], seeded.name))]
          + NewApps(names + {seeded.name.value}, images[1..], next + 1)
  }

  lemma NamesOfAppend(apps: seq<Application>, a: Application)
    requires a.name.Some?
    ensures Names(apps + [a]) == Names(apps) + {a.name.value}
  {
    var both := apps + [a];
    assert both[|apps|] == a;
    forall n | n in Names(apps) ensures n in Names(both) {
      var k :| 0 <= k < |apps| && apps[k].name.Some? && apps[k].name.value == n;
      assert both[k] == apps[k];
    }
    forall n | n in Names(both) ensures n in Names(apps) + {a.name.value} {
      var k :| 0 <= k < |both| && both[k].name.Some? && both[k].name.value == n;
      if k < |apps| {
        assert both[k] == apps[k];
      }
    }
  }

  lemma NamesOfSameNames(apps: seq<Application>, apps': seq<Application>)
    requires |apps'| == |apps|
    requires forall k :: 0 <= k < |apps| ==> apps'[k].name == apps[k].name
    ensures Names(apps') == Names(apps)
  {
    forall n | n in Names(apps) ensures n in Names(apps') {
      var k :| 0 <= k < |apps| && apps[k].name.Some? && apps[k].name.value == n;
      assert apps'[k].name == apps[k].name;
    }
    forall n | n in Names(apps') ensures n in Names(apps) {
      var k :| 0 <= k < |apps'| && apps'[k].name.Some? && apps'[k].name.value == n;
      assert apps'[k].name == apps[k].name;
    }
  }

  /**
   The image loop's result `r` as its reference describes it: every
   Application present before the loop collects exactly the matching
   snapshots in order, and after them come the Applications `NewApps`
   describes, each with the next id.
   */
  predicate DescribedBy(r: (seq<Application>, nat), apps: seq<Application>, images: seq<Image>, counter: nat) {
    Collects(r.0, apps, images) && Follows(r, apps, images, counter)
  }

  /** The Applications present before the loop collect exactly their matching snapshots, in order. */
  predicate Collects(out: seq<Application>, apps: seq<Application>, images: seq<Image>) {
    && |out| >= |apps|
    && forall k :: 0 <= k < |apps| ==> out[k] == AddAll(apps[k], Matching(images, apps[k].name))
  }

  /** After them come the Applications `NewApps` describes, and the counter moves past their ids. */
  predicate Follows(r: (seq<Application>, nat), apps: seq<Application>, images: seq<Image>, counter: nat) {
    var born := NewApps(Names(apps), images, counter);
    && |r.0| == |apps| + |born|
    && r.1 == counter + |born|
    && forall k :: 0 <= k < |born| ==> r.0[|apps| + k] == born[k]
  }

  /** A matching snapshot at the head of the images is the head of `Matching`. */
  lemma MatchingTakesHead(images: seq<Image>, name: Option<string>)
    requires images != [] && IsSnapshot(images[0]) && name.Some? && images[0].createdFrom == name
    ensures Matching(images, name) == [images[0]] + Matching(images[1..], name)
  {
  }

  /** Any other image at the head is not in `Matching`. */
  lemma MatchingSkipsHead(images: seq<Image>, name: Option<string>)
    requires images != [] && !(IsSnapshot(images[0]) && name.Some? && images[0].createdFrom == name)
    ensures Matching(images, name) == Matching(images[1..], name)
  {
  }

  lemma AddAllCons(a: Application, img: Image, tail: seq<Image>)
    ensures AddAll(a, [img] + tail) == AddAll(AddImage(a, img), tail)
  {
    assert ([img] + tail)[1..] == tail;
  }

  /** `NewApps` skips a head image that is no snapshot or is claimed by a taken name. */
  lemma NewAppsSkipsHead(names: set<string>, images: seq<Image>, next: nat)
    requires images != []
    requires !IsSnapshot(images[0]) || (images[0].createdFrom.Some? && images[0].createdFrom.value in names)
    ensures NewApps(names, images, next) == NewApps(names, images[1..], next)
  {
  }

  /** `NewApps` when its first image is a snapshot no taken name claims. */
  lemma NewAppsUnclaimedHead(names: set<string>, images: seq<Image>, next: nat)
    requires images != [] && IsSnapshot(images[0])
    requires !(images[0].createdFrom.Some? && images[0].createdFrom.value in names)
    ensures var seeded := ImageApp(next, images[0]);
      NewApps(names, images, next)
        == [AddAll(seeded, Matching(images[1..], seeded.name))] + NewApps(names + {seeded.name.value}, images[1..], next + 1)
  {
  }

  /** A non-snapshot at the head of the images changes nothing the reference describes. */
  lemma SkipKeepsReference(r: (seq<Application>, nat), apps: seq<Application>, images: seq<Image>, counter: nat)
    requires images != [] && !IsSnapshot(images[0])
    requires DescribedBy(r, apps, images[1..], counter)
    ensures DescribedBy(r, apps, images, counter)
  {
    NewAppsSkipsHead(Names(apps), images, counter);
    forall k | 0 <= k < |apps| ensures Matching(images, apps[k].name) == Matching(images[1..], apps[k].name) {
      MatchingSkipsHead(images, apps[k].name);
    }
  }

  /** A claimed snapshot at the head joins its namesakes: it is the head of their `Matching`. */
  lemma ClaimedCollects(out: seq<Application>, apps: seq<Application>, apps1: seq<Application>, images: seq<Image>)
    requires images != [] && IsSnapshot(images[0])
    requires |apps1| == |apps|
    requires forall k :: 0 <= k < |apps| ==>
      apps1[k] == (if Matches(apps[k], images[0]) then AddImage(apps[k], images[0]) else apps[k])
    requires Collects(out, apps1, images[1..])
    ensures Collects(out, apps, images)
  {
    var img, rest := images[0], images[1..];
    forall k | 0 <= k < |apps|
      ensures out[k] == AddAll(apps[k], Matching(images, apps[k].name))
    {
      var n := apps[k].name;
      assert out[k] == AddAll(apps1[k], Matching(rest, apps1[k].name));
      if Matches(apps[k], img) {
        assert apps1[k] == AddImage(apps[k], img);
        assert apps1[k].name == n;
        MatchingTakesHead(images, n);
        AddAllCons(apps[k], img, Matching(rest, n));
      } else {
        assert apps1[k] == apps[k];
        MatchingSkipsHead(images, n);
      }
    }
  }

  /** A claimed snapshot creates nothing, so the new Applications are those of the rest. */
  lemma ClaimedFollows(r: (seq<Application>, nat), apps: seq<Application>, apps1: seq<Application>,
                       images: seq<Image>, counter: nat)
    requires images != [] && IsSnapshot(images[0]) && Claimed(apps, images[0])
    requires |apps1| == |apps| && Names(apps1) == Names(apps)
    requires Follows(r, apps1, images[1..], counter)
    ensures Follows(r, apps, images, counter)
  {
    NewAppsSkipsHead(Names(apps), images, counter);
  }

  /** Before an unclaimed snapshot no existing Application matches it. */
  lemma UnclaimedCollects(out: seq<Application>, apps: seq<Application>, apps1: seq<Application>, images: seq<Image>)
    requires images != [] && !Claimed(apps, images[0])
    requires |apps1| == |apps| + 1 && apps1[..|apps|] == apps
    requires Collects(out, apps1, images[1..])
    ensures Collects(out, apps, images)
  {
    var img := images[0];
    ClaimedIffSomeMatch(apps, img);
    forall k | 0 <= k < |apps|
      ensures out[k] == AddAll(apps[k], Matching(images, apps[k].name))
    {
      assert apps1[k] == apps1[..|apps|][k] == apps[k];
      assert !Matches(apps[k], img);
      MatchingSkipsHead(images, apps[k].name);
    }
  }

  /** An unclaimed snapshot seeds the first Application `NewApps` describes; the rest follow it. */
  lemma UnclaimedFollows(r: (seq<Application>, nat), apps: seq<Application>, apps1: seq<Application>,
                         images: seq<Image>, counter: nat)
    requires images != [] && IsSnapshot(images[0]) && !Claimed(apps, images[0])
    requires |apps1| == |apps| + 1 && apps1[|apps|] == ImageApp(counter, images[0])
    requires Names(apps1) == Names(apps) + {ImageApp(counter, images[0]).name.value}
    requires Follows(r, apps1, images[1..], counter + 1)
    requires r.0[|apps|] == AddAll(apps1[|apps|], Matching(images[1..], apps1[|apps|].name))
    ensures Follows(r, apps, images, counter)
  {
    var seeded := ImageApp(counter, images[0]);
    var born1 := NewApps(Names(apps1), images[1..], counter + 1);
    var born := NewApps(Names(apps), images, counter);
    NewAppsUnclaimedHead(Names(apps), images, counter);
    assert born == [AddAll(seeded, Matching(images[1..], seeded.name))] + born1;
    forall k | 0 <= k < |born| ensures r.0[|apps| + k] == born[k] {
      if k > 0 {
        assert born[k] == born1[k - 1];
        assert r.0[|apps1| + (k - 1)] == born1[k - 1];
      }
    }
  }

  /** A claimed snapshot at the head: what `Step` does to the list keeps the reference. */
  lemma ClaimedKeepsReference(r: (seq<Application>, nat), apps: seq<Application>, apps1: seq<Application>,
                              images: seq<Image>, counter: nat)
    requires images != [] && IsSnapshot(images[0]) && Claimed(apps, images[0])
    requires |apps1| == |apps|
    requires forall k :: 0 <= k < |apps| ==>
      apps1[k] == (if Matches(apps[k], images[0]) then AddImage(apps[k], images[0]) else apps[k])
    requires DescribedBy(r, apps1, images[1..], counter)
    ensures DescribedBy(r, apps, images, counter)
  {
    forall k | 0 <= k < |apps| ensures apps1[k].name == apps[k].name {
    }
    NamesOfSameNames(apps, apps1);
    ClaimedCollects(r.0, apps, apps1, images);
    ClaimedFollows(r, apps, apps1, images, counter);
  }

  /** An unclaimed snapshot at the head: the Application `Step` appends keeps the reference. */
  lemma UnclaimedKeepsReference(r: (seq<Application>, nat), apps: seq<Application>, apps1: seq<Application>,
                                images: seq<Image>, counter: nat)
    requires images != [] && IsSnapshot(images[0]) && !Claimed(apps, images[0])
    requires apps1 == apps + [ImageApp(counter, images[0])]
    requires DescribedBy(r, apps1, images[1..], counter + 1)
    ensures DescribedBy(r, apps, images, counter)
  {
    var seeded := ImageApp(counter, images[0]);
    assert apps1[..|apps|] == apps;
    assert apps1[|apps|] == seeded;
    NamesOfAppend(apps, seeded);
    UnclaimedCollects(r.0, apps, apps1, images);
    UnclaimedFollows(r, apps, apps1, images, counter);
  }

  /**
   One pass of the image loop keeps the reference: given what `Step` does
   with the head image, a result described for the rest of the images from
   the stepped list is described for all of them from the list before.
   */
  lemma StepKeepsReference(r: (seq<Application>, nat), apps: seq<Application>, images: seq<Image>, counter: nat,
                           apps1: seq<Application>, counter1: nat)
    requires images != []
    requires !IsSnapshot(images[0]) ==> apps1 == apps && counter1 == counter
    requires IsSnapshot(images[0]) && Claimed(apps, images[0]) ==>
      && counter1 == counter
      && |apps1| == |apps|
      && forall k :: 0 <= k < |apps| ==>
           apps1[k] == (if Matches(apps[k], images[0]) then AddImage(apps[k], images[0]) else apps[k])
    requires IsSnapshot(images[0]) && !Claimed(apps, images[0]) ==>
      apps1 == apps + [ImageApp(counter, images[0])] && counter1 == counter + 1
    requires DescribedBy(r, apps1, images[1..], counter1)
    ensures DescribedBy(r, apps, images, counter)
  {
    if !IsSnapshot(images[0]) {
      SkipKeepsReference(r, apps, images, counter);
    } else if Claimed(apps, images[0]) {
      ClaimedKeepsReference(r, apps, apps1, images, counter);
    } else {
      UnclaimedKeepsReference(r, apps, apps1, images, counter);
    }
  }

  /** The image loop meets its reference description, by induction over the images. */
  lemma {:induction false} ProcessImagesSpec(apps: seq<Application>, images: seq<Image>, counter: nat)
    ensures DescribedBy(ProcessImages(apps, images, counter), apps, images, counter)
    decreases |images|
  {
    if images == [] {
      forall k | 0 <= k < |apps| ensures apps[k] == AddAll(apps[k], Matching(images, apps[k].name)) {
        AddAllAppends(apps[k], []);
      }
    } else {
      var (apps1, counter1) := Step(apps, counter, images[0]);
      var r := ProcessImages(apps1, images[1..], counter1);
      ProcessImagesSpec(apps1, images[1..], counter1);
      assert ProcessImages(apps, images, counter) == r;
      StepKeepsReference(r, apps, images, counter, apps1, counter1);
    }
  }

  /** The names of the servers, the names the seeded list starts with. */
  function ServerNames(servers: seq<Server>): set<string> {
    set i | 0 <= i < |servers| :: servers[i].name
  }

  lemma NamesOfSeeded(servers: seq<Server>, counter: nat)
    ensures Names(SeedServers(servers, counter).0) == ServerNames(servers)
  {
    var seeded := SeedServers(servers, counter).0;
    forall n | n in ServerNames(servers) ensures n in Names(seeded) {
      var i :| 0 <= i < |servers| && servers[i].name == n;
      assert seeded[i] == ServerApp(counter + i, servers[i]);
    }
    forall n | n in Names(seeded) ensures n in ServerNames(servers) {
      var i :| 0 <= i < |seeded| && seeded[i].name.Some? && seeded[i].name.value == n;
      assert seeded[i] == ServerApp(counter + i, servers[i]);
    }
  }

  /** Read for a list seeded from the servers, `Collects` says each server's Application gathers its snapshots. */
  lemma SeededCollects(out: seq<Application>, servers: seq<Server>, seeded: seq<Application>,
                       images: seq<Image>, counter: nat)
    requires |seeded| == |servers|
    requires forall i :: 0 <= i < |servers| ==> seeded[i] == ServerApp(counter + i, servers[i])
    requires Collects(out, seeded, images)
    ensures |out| >= |servers|
    ensures forall i :: 0 <= i < |servers| ==>
      out[i] == AddAll(ServerApp(counter + i, servers[i]), Matching(images, Some(servers[i].name)))
  {
    forall i | 0 <= i < |servers|
      ensures out[i] == AddAll(ServerApp(counter + i, servers[i]), Matching(images, Some(servers[i].name)))
    {
      assert out[i] == AddAll(seeded[i], Matching(images, seeded[i].name));
    }
  }

  /** Read for a list seeded from the servers, `Follows` places the new Applications after them. */
  lemma SeededFollows(r: (seq<Application>, nat), servers: seq<Server>, seeded: seq<Application>,
                      images: seq<Image>, counter: nat)
    requires |seeded| == |servers|
    requires Names(seeded) == ServerNames(servers)
    requires Follows(r, seeded, images, counter + |servers|)
    ensures var born := NewApps(ServerNames(servers), images, counter + |servers|);
      && |r.0| == |servers| + |born|
      && r.1 == counter + |r.0|
      && (forall k :: 0 <= k < |born| ==> r.0[|servers| + k] == born[k])
  {
    var born := NewApps(ServerNames(servers), images, counter + |servers|);
    assert NewApps(Names(seeded), images, counter + |servers|) == born;
    forall k | 0 <= k < |born| ensures r.0[|servers| + k] == born[k] {
      assert r.0[|seeded| + k] == born[k];
    }
  }

  /**
   The whole reconciliation: first one Application per server, in server
   order, each holding its server and every snapshot created from a server
   of its name; then one Application per snapshot that no earlier name
   claimed, as `NewApps` describes; and the counter advances by exactly the
   number of Applications made.
   */
  lemma GenerateApplicationListSpec(servers: seq<Server>, images: seq<Image>, counter: nat)
    ensures var r := GenerateApplicationList(servers, images, counter);
      var born := NewApps(ServerNames(servers), images, counter + |servers|);
      && |r.0| == |servers| + |born|
      && r.1 == counter + |r.0|
      && (forall i :: 0 <= i < |servers| ==>
            r.0[i] == AddAll(ServerApp(counter + i, servers[i]), Matching(images, Some(servers[i].name))))
      && (forall k :: 0 <= k < |born| ==> r.0[|servers| + k] == born[k])
  {
    var (seeded, next) := SeedServers(servers, counter);
    assert GenerateApplicationList(servers, images, counter) == ProcessImages(seeded, images, next);
    ProcessImagesSpec(seeded, images, next);
    NamesOfSeeded(servers, counter);
    var r := ProcessImages(seeded, images, next);
    SeededCollects(r.0, servers, seeded, images, counter);
    SeededFollows(r, servers, seeded, images, counter);
  }

  // ---------------------------------------------------------------------
  // Consequences
  // ---------------------------------------------------------------------

  /**
   Ids are handed out consecutively from the counter, so they strictly
   increase in output order and the counter advances by the output length;
   every Application has a name and a status.
   */
  lemma IdsAndFields(servers: seq<Server>, images: seq<Image>, counter: nat)
    ensures var r := GenerateApplicationList(servers, images, counter);
      && r.1 == counter + |r.0|
      && (forall k :: 0 <= k < |r.0| ==> r.0[k].id == counter + k)
      && (forall j, k :: 0 <= j < k < |r.0| ==> r.0[j].id < r.0[k].id)
      && (forall k :: 0 <= k < |r.0| ==> r.0[k].name.Some? && r.0[k].status.Some?)
  {
    var (seeded, next) := SeedServers(servers, counter);
    assert GenerateApplicationList(servers, images, counter) == ProcessImages(seeded, images, next);
    assert Numbered(seeded, counter, next);
    ProcessImagesNumbered(seeded, images, next, counter);
  }

  /**
   The Applications carry the ids `base`, `base + 1`, … in order, the
   counter is the next id, and every Application has a name and a status.
   */
  predicate Numbered(apps: seq<Application>, base: nat, counter: nat) {
    && counter == base + |apps|
    && forall k :: 0 <= k < |apps| ==> apps[k].id == base + k && apps[k].name.Some? && apps[k].status.Some?
  }

  /** One pass of the image loop keeps the Applications numbered. */
  lemma StepNumbered(apps: seq<Application>, counter: nat, img: Image, base: nat)
    requires Numbered(apps, base, counter)
    ensures var (apps1, counter1) := Step(apps, counter, img);
      Numbered(apps1, base, counter1)
  {
    var (apps1, counter1) := Step(apps, counter, img);
    if IsSnapshot(img) && Claimed(apps, img) {
      forall k | 0 <= k < |apps1|
        ensures apps1[k].id == base + k && apps1[k].name.Some? && apps1[k].status.Some?
      {
        assert apps1[k].(images := apps[k].images) == apps[k];
      }
    } else if IsSnapshot(img) {
      assert apps1 == apps + [ImageApp(counter, img)];
      forall k | 0 <= k < |apps1|
        ensures apps1[k].id == base + k && apps1[k].name.Some? && apps1[k].status.Some?
      {
        if k < |apps| {
          assert apps1[k] == apps[k];
        }
      }
    }
  }

  /** The image loop keeps the Applications numbered, by induction over the images. */
  lemma {:induction false} ProcessImagesNumbered(apps: seq<Application>, images: seq<Image>, counter: nat, base: nat)
    requires Numbered(apps, base, counter)
    ensures var (out, last) := ProcessImages(apps, images, counter);
      Numbered(out, base, last)
    decreases |images|
  {
    if images != [] {
      var (apps1, counter1) := Step(apps, counter, images[0]);
      StepNumbered(apps, counter, images[0], base);
      ProcessImagesNumbered(apps1, images[1..], counter1, base);
      assert ProcessImages(apps, images, counter) == ProcessImages(apps1, images[1..], counter1);
    }
  }

  /**
   The first |servers| Applications are the servers in input order: each is
   named after its server, holds exactly that server, and holds images only
   if some snapshot was created from a server of that name, in which case it
   holds all of them in input order.
   */
  lemma ServerAppsFirst(servers: seq<Server>, images: seq<Image>, counter: nat)
    ensures var r := GenerateApplicationList(servers, images, counter);
      && |r.0| >= |servers|
      && forall i :: 0 <= i < |servers| ==>
        && r.0[i].name == Some(servers[i].name)
        && r.0[i].status == Some(Debug(servers[i].status))
        && r.0[i].servers == Some([servers[i]])
        && ImagesOf(r.0[i]) == Matching(images, Some(servers[i].name))
        && (r.0[i].images.None? <==> Matching(images, Some(servers[i].name)) == [])
  {
    var r := GenerateApplicationList(servers, images, counter);
    GenerateApplicationListSpec(servers, images, counter);
    forall i | 0 <= i < |servers|
      ensures r.0[i].name == Some(servers[i].name)
      ensures r.0[i].status == Some(Debug(servers[i].status))
      ensures r.0[i].servers == Some([servers[i]])
      ensures ImagesOf(r.0[i]) == Matching(images, Some(servers[i].name))
      ensures r.0[i].images.None? <==> Matching(images, Some(servers[i].name)) == []
    {
      AddAllAppends(ServerApp(counter + i, servers[i]), Matching(images, Some(servers[i].name)));
    }
  }

  /** The images that are snapshots, in input order. */
  function Snapshots(images: seq<Image>): (r: seq<Image>)
    ensures forall i :: 0 <= i < |r| ==> IsSnapshot(r[i])
    decreases |images|
  {
    if images == [] then []
    else if IsSnapshot(images[0]) then [images[0]] + Snapshots(images[1..])
    else Snapshots(images[1..])
  }

  lemma {:induction false} ProcessOnlySnapshots(apps: seq<Application>, images: seq<Image>, counter: nat)
    ensures ProcessImages(apps, images, counter) == ProcessImages(apps, Snapshots(images), counter)
    decreases |images|
  {
    if images != [] {
      ProcessOnlySnapshots(Step(apps, counter, images[0]).0, images[1..], Step(apps, counter, images[0]).1);
      if IsSnapshot(images[0]) {
        assert Snapshots(images)[1..] == Snapshots(images[1..]);
      }
    }
  }

  /** Images that are not snapshots have no effect on the output. */
  lemma NonSnapshotsIgnored(servers: seq<Server>, images: seq<Image>, counter: nat)
    ensures GenerateApplicationList(servers, images, counter)
         == GenerateApplicationList(servers, Snapshots(images), counter)
  {
    var (seeded, next) := SeedServers(servers, counter);
    ProcessOnlySnapshots(seeded, images, next);
  }

  /**
   No two Applications of one call both carry a placeholder name equal to
   each other: placeholder names embed the id, and ids are distinct.
   */
  lemma UnnamedNamesDistinct(servers: seq<Server>, images: seq<Image>, counter: nat)
    ensures var r := GenerateApplicationList(servers, images, counter);
      forall j, k :: 0 <= j < k < |r.0| ==> Unnamed(r.0[j].id) != Unnamed(r.0[k].id)
  {
    var r := GenerateApplicationList(servers, images, counter);
    IdsAndFields(servers, images, counter);
    forall j, k | 0 <= j < k < |r.0| ensures Unnamed(r.0[j].id) != Unnamed(r.0[k].id) {
      UnnamedInjective(r.0[j].id, r.0[k].id);
    }
  }

  // ---------------------------------------------------------------------
  // Scenarios
  // ---------------------------------------------------------------------

  /**
   Two servers share a name and one snapshot was created from a server of
   that name: the snapshot joins both Applications and seeds none.
   */
  lemma SnapshotJoinsEveryNamesake(st: Status, counter: nat)
    ensures var web := Server("web", st);
      var snap := Image(None, Snapshot, st, Some("web"));
      var r := GenerateApplicationList([web, web], [snap], counter);
      |r.0| == 2 && r.0[0].images == Some([snap]) && r.0[1].images == Some([snap])
  {
    var web := Server("web", st);
    var snap := Image(None, Snapshot, st, Some("web"));
    var seeded := SeedServers([web, web], counter).0;
    assert seeded[0].name == Some("web");
    assert "web" in Names(seeded);
    var stepped := Step(seeded, counter + 2, snap);
    assert [snap][1..] == [];
    assert ProcessImages(seeded, [snap], counter + 2) == ProcessImages(stepped.0, [], stepped.1);
  }

  /** A snapshot without a name or a source seeds one Application named after its id. */
  lemma UnnamedSnapshotSeedsOne(st: Status, counter: nat)
    ensures var snap := Image(None, Snapshot, st, None);
      var r := GenerateApplicationList([], [snap], counter);
      |r.0| == 1 && r.0[0].name == Some(Unnamed(counter)) && r.0[0].images == Some([snap])
      && r.0[0].servers.None? && r.1 == counter + 1
  {
    var snap := Image(None, Snapshot, st, None);
    var stepped := Step([], counter, snap);
    assert [snap][1..] == [];
    assert ProcessImages([], [snap], counter) == ProcessImages(stepped.0, [], stepped.1);
  }

  /**
   Three servers, a snapshot created from the first, an unrelated named
   snapshot and a non-snapshot image give four Applications: the first
   server's holds its snapshot, and the last is the unrelated snapshot's.
   */
  lemma ThreeServersThreeImages(st: Status, counter: nat)
    ensures var servers := [Server("Amogus", st), Server("In Our Midst", st), Server("Amid Us", st)];
      var derived := Image(Some("Amogus snapshot"), Snapshot, st, Some("Amogus"));
      var unrelated := Image(Some("In Our Group"), Snapshot, st, None);
      var system := Image(Some("ubuntu"), Other, st, None);
      var r := GenerateApplicationList(servers, [derived, unrelated, system], counter);
      && |r.0| == 4
      && r.0[0].name == Some("Amogus") && r.0[0].images == Some([derived])
      && r.0[3].name == Some("In Our Group") && r.0[3].servers.None?
      && r.0[3].images == Some([unrelated])
  {
    var servers := [Server("Amogus", st), Server("In Our Midst", st), Server("Amid Us", st)];
    var derived := Image(Some("Amogus snapshot"), Snapshot, st, Some("Amogus"));
    var unrelated := Image(Some("In Our Group"), Snapshot, st, None);
    var system := Image(Some("ubuntu"), Other, st, None);
    var images := [derived, unrelated, system];
    var seeded := SeedServers(servers, counter).0;
    assert seeded[0].name == Some("Amogus");
    assert "Amogus" in Names(seeded);
    var s1 := Step(seeded, counter + 3, derived);
    assert s1.0[0] == AddImage(seeded[0], derived);
    var s2 := Step(s1.0, s1.1, unrelated);
    var s3 := Step(s2.0, s2.1, system);
    assert images[1..] == [unrelated, system] && images[1..][1..] == [system] && images[1..][1..][1..] == [];
    assert ProcessImages(seeded, images, counter + 3) == ProcessImages(s1.0, [unrelated, system], s1.1);
    assert ProcessImages(s1.0, [unrelated, system], s1.1) == ProcessImages(s2.0, [system], s2.1);
    assert ProcessImages(s2.0, [system], s2.1) == ProcessImages(s3.0, [], s3.1);
  }
}
