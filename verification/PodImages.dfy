/** The images a pod specification or a running pod names. */
module PodImages {
  import opened Text
  import opened Selection

  datatype Container = Container(name: string, image: string)
  datatype PodSpec = PodSpec(init: seq<Container>, containers: seq<Container>, ephemeral: seq<Container>)
  datatype Status = Status(name: string, imageID: string)
  datatype PodImage = PodImage(image: string, containerName: string, imageID: string)

  function AllContainers(spec: PodSpec): seq<Container> { spec.init + spec.containers + spec.ephemeral }

  /** The image a container names, blanks trimmed, if it names one. */
  function ImageOf(c: Container): Option<PodImage> {
    var img := TrimSpace(c.image);
    if img == "" then None else Some(PodImage(img, TrimSpace(c.name), ""))
  }

  function ImagesOf(cs: seq<Container>): seq<PodImage> { Picked(cs, ImageOf) }

  /** All three lists contribute, one after the other, every container that names an image. */
  lemma SpecImages(spec: PodSpec)
    ensures ImagesOf(AllContainers(spec)) == ImagesOf(spec.init) + ImagesOf(spec.containers) + ImagesOf(spec.ephemeral)
    ensures forall img :: img in ImagesOf(AllContainers(spec)) <==>
              exists c :: (c in spec.init || c in spec.containers || c in spec.ephemeral) &&
                TrimSpace(c.image) != "" && img == PodImage(TrimSpace(c.image), TrimSpace(c.name), "")
  {
    PickedConcat(spec.init + spec.containers, spec.ephemeral, ImageOf);
    PickedConcat(spec.init, spec.containers, ImageOf);
    forall img { SpecMembers(spec, img); }
  }

  lemma SpecMembers(spec: PodSpec, img: PodImage)
    ensures img in ImagesOf(AllContainers(spec)) <==>
            exists c :: (c in spec.init || c in spec.containers || c in spec.ephemeral) &&
              TrimSpace(c.image) != "" && img == PodImage(TrimSpace(c.image), TrimSpace(c.name), "")
  {
    PickedMembers(AllContainers(spec), ImageOf);
    forall c { ImageNamed(c, img); }
  }

  lemma ImageNamed(c: Container, img: PodImage)
    ensures ImageOf(c) == Some(img) <==>
            TrimSpace(c.image) != "" && img == PodImage(TrimSpace(c.image), TrimSpace(c.name), "")
  {
  }

  /** The three lists are walked in order, each appending to one slice. */
  method ImagesFromPodSpec(spec: PodSpec) returns (out: seq<PodImage>)
    ensures out == ImagesOf(AllContainers(spec))
    ensures out == ImagesOf(spec.init) + ImagesOf(spec.containers) + ImagesOf(spec.ephemeral)
    ensures forall img :: img in out <==>
              exists c :: (c in spec.init || c in spec.containers || c in spec.ephemeral) &&
                TrimSpace(c.image) != "" && img == PodImage(TrimSpace(c.image), TrimSpace(c.name), "")
  {
    SpecImages(spec);
    var all := AllContainers(spec);
    out := [];
    for i := 0 to |all|
      invariant out == ImagesOf(all[..i])
    {
      PickedStep(all, ImageOf, i);
      var img, name := TrimSpace(all[i].image), TrimSpace(all[i].name);
      if img != "" { out := out + [PodImage(img, name, "")]; }
    }
    assert all[..|all|] == all;
  }

  /** The ID that a status reports under a container name, if any. */
  function StatusID(s: Status, name: string): Option<string> {
    var id := NormalizeImageID(s.imageID);
    if name != "" && TrimSpace(s.name) == name && id != "" then Some(id) else None
  }

  /** The image ID under a container name: the last status that reports one. */
  function ReportedID(statuses: seq<Status>, name: string): Option<string> {
    LastOf(statuses, s => StatusID(s, name))
  }

  /** The status at `i` is the last of that name to report an ID. */
  ghost predicate ReportsLast(statuses: seq<Status>, name: string, id: string, i: nat) {
    && i < |statuses| && TrimSpace(statuses[i].name) == name
    && NormalizeImageID(statuses[i].imageID) == id && id != ""
    && forall j :: i < j < |statuses| && TrimSpace(statuses[j].name) == name ==>
         NormalizeImageID(statuses[j].imageID) == ""
  }

  /** The last status of a name that reports an ID decides; no ID means that none does, or that the
      container has no name. */
  lemma ReportedMeaning(statuses: seq<Status>, name: string)
    ensures name == "" ==> ReportedID(statuses, name).None?
    ensures match ReportedID(statuses, name)
            case None =>
              name != "" ==> forall i :: 0 <= i < |statuses| && TrimSpace(statuses[i].name) == name ==>
                NormalizeImageID(statuses[i].imageID) == ""
            case Some(id) => exists i :: ReportsLast(statuses, name, id, i)
  {
    var f := (s: Status) => StatusID(s, name);
    LastOfMeaning(statuses, f);
    if ReportedID(statuses, name).Some? {
      var id := ReportedID(statuses, name).value;
      var i :| 0 <= i < |statuses| && f(statuses[i]) == Some(id) && forall j :: i < j < |statuses| ==>
          f(statuses[j]).None?;
      forall j | i < j < |statuses| && TrimSpace(statuses[j].name) == name
        ensures NormalizeImageID(statuses[j].imageID) == ""
      {
        assert f(statuses[j]).None?;
      }
      assert ReportsLast(statuses, name, id, i);
    }
  }

  function WithID(statuses: seq<Status>, img: PodImage): PodImage {
    var id := ReportedID(statuses, img.containerName);
    if id.Some? then img.(imageID := id.value) else img
  }

  function WithIDs(statuses: seq<Status>, images: seq<PodImage>): seq<PodImage> {
    seq(|images|, i requires 0 <= i < |images| => WithID(statuses, images[i]))
  }

  /** The table holds what the statuses report. */
  ghost predicate Tables(byName: map<string, string>, statuses: seq<Status>) {
    forall name :: ReportedID(statuses, name) == if name in byName then Some(byName[name]) else None
  }

  /** The table after one more status. */
  function Noted(byName: map<string, string>, s: Status): map<string, string> {
    var name, id := TrimSpace(s.name), NormalizeImageID(s.imageID);
    if name != "" && id != "" then byName[name := id] else byName
  }

  lemma TablesStep(byName: map<string, string>, statuses: seq<Status>, i: nat)
    requires i < |statuses| && Tables(byName, statuses[..i])
    ensures Tables(Noted(byName, statuses[i]), statuses[..i + 1])
  {
    forall name
      ensures var t := Noted(byName, statuses[i]);
              ReportedID(statuses[..i + 1], name) == if name in t then Some(t[name]) else None
    {
      LastOfStep(statuses, s => StatusID(s, name), i);
      assert ReportedID(statuses[..i], name) == if name in byName then Some(byName[name]) else None;
    }
  }

  /** Fills a table from the statuses, then writes the IDs into the list. */
  method ImagesFromPod(spec: PodSpec, statuses: seq<Status>) returns (images: seq<PodImage>)
    ensures images == WithIDs(statuses, ImagesOf(AllContainers(spec)))
    ensures |images| == |ImagesOf(AllContainers(spec))|
    ensures forall i :: 0 <= i < |images| ==>
              var plain, id := ImagesOf(AllContainers(spec))[i], ReportedID(statuses, images[i].containerName);
              && images[i].image == plain.image && images[i].containerName == plain.containerName
              && images[i].imageID == if id.Some? then id.value else plain.imageID
  {
    images := ImagesFromPodSpec(spec);
    var byName: map<string, string> := map[];
    for i := 0 to |statuses|
      invariant Tables(byName, statuses[..i])
    {
      TablesStep(byName, statuses, i);
      var name, id := TrimSpace(statuses[i].name), NormalizeImageID(statuses[i].imageID);
      if name != "" && id != "" { byName := byName[name := id]; }
    }
    assert statuses[..|statuses|] == statuses;
    images := WriteIDs(byName, statuses, images);
  }

  /** The list of which the first `i` images carry their IDs. */
  function Partly(statuses: seq<Status>, plain: seq<PodImage>, i: nat): seq<PodImage>
    requires i <= |plain|
  {
    WithIDs(statuses, plain[..i]) + plain[i..]
  }

  lemma PartlyStep(statuses: seq<Status>, plain: seq<PodImage>, i: nat)
    requires i < |plain|
    ensures Partly(statuses, plain, i)[i] == plain[i]
    ensures Partly(statuses, plain, i + 1) == Partly(statuses, plain, i)[i := WithID(statuses, plain[i])]
  {
  }

  method WriteIDs(byName: map<string, string>, ghost statuses: seq<Status>, plain: seq<PodImage>)
      returns (images: seq<PodImage>)
    requires Tables(byName, statuses)
    ensures images == WithIDs(statuses, plain)
  {
    images := plain;
    assert plain == Partly(statuses, plain, 0);
    for i := 0 to |images|
      invariant |images| == |plain| && images == Partly(statuses, plain, i)
    {
      PartlyStep(statuses, plain, i);
      if images[i].containerName in byName {
        images := images[i := images[i].(imageID := byName[images[i].containerName])];
      }
    }
    assert plain[..|plain|] == plain;
  }
}
