/** The example table of the gallery and its lookup by id (src/demos/index.js). */
module Catalog {
  import opened Text

  /** One gallery record: directory name, title, description, thumbnail path, tags. */
  datatype Example = Example(
    id: string,
    title: string,
    description: string,
    thumbnail: string,
    tags: seq<string>)

  /** The thumbnail path every catalogue entry follows. */
  function ThumbnailOf(id: string): string
  {
    "/src/demos/" + id + "/thumbnail.jpg"
  }

  /** The titles and descriptions of the two entries. */
  const RotatingCubeTitle: string := "旋转立方体"
  const RotatingCubeDescription: string := "一个基础的 Three.js 示例，展示一个在场景中旋转的彩色立方体。"
  const AnimatedLineTitle: string := "动画线条"
  const AnimatedLineDescription: string := "一个使用Three.js创建的动画线条效果"

  /** The table exported as `examples`, in its source order. */
  const Examples: seq<Example> := [
    Example(
      "rotating-cube",
      RotatingCubeTitle,
      RotatingCubeDescription,
      "/src/demos/rotating-cube/thumbnail.jpg",
      ["basic", "animation"]),
    Example(
      "animated-line",
      AnimatedLineTitle,
      AnimatedLineDescription,
      "/src/demos/animated-line/thumbnail.jpg",
      ["animation", "line"])
  ]

  /** `examples.find(e => e.id === id)`: the first entry of `table` with that id. */
  function FindById(table: seq<Example>, id: string): (r: Option<nat>)
    ensures r.Some? ==> r.value < |table| && table[r.value].id == id
    ensures r.Some? ==> forall k :: 0 <= k < r.value ==> table[k].id != id
    ensures r.None? <==> forall k :: 0 <= k < |table| ==> table[k].id != id
  {
    if |table| == 0 then None
    else if table[0].id == id then Some(0)
    else match FindById(table[1..], id)
      case None => None
      case Some(k) => Some(k + 1)
  }

  /** `getExampleById(id)`: the first example with that id, or `null` (None). */
  function GetExampleById(id: string): (r: Option<Example>)
    ensures r.Some? ==> r.value.id == id && r.value in Examples
    ensures r.None? <==> forall e :: e in Examples ==> e.id != id
    ensures r.Some? ==> exists k :: 0 <= k < |Examples| && Examples[k] == r.value &&
                                    forall j :: 0 <= j < k ==> Examples[j].id != id
  {
    match FindById(Examples, id)
    case None => None
    case Some(k) => Some(Examples[k])
  }

  /** The table has two entries with distinct ids, and every thumbnail
      follows the `/src/demos/<id>/thumbnail.jpg` rule. */
  lemma TableShape()
    ensures |Examples| == 2
    ensures Examples[0].id == "rotating-cube" && Examples[1].id == "animated-line"
    ensures forall i, j :: 0 <= i < j < |Examples| ==> Examples[i].id != Examples[j].id
    ensures forall e :: e in Examples ==> e.thumbnail == ThumbnailOf(e.id)
  {
    assert Examples[0].id[0] != Examples[1].id[0];
    ThumbnailRule(0);
    ThumbnailRule(1);
  }

  lemma ThumbnailRule(k: nat)
    requires k < 2
    ensures k < |Examples| && Examples[k].thumbnail == ThumbnailOf(Examples[k].id)
  {
    if k == 0 {
      FirstThumbnail();
    } else {
      SecondThumbnail();
    }
  }

  lemma FirstThumbnail()
    ensures Examples[0].thumbnail == ThumbnailOf(Examples[0].id)
  {
    assert Examples[0].id == "rotating-cube";
    assert Examples[0].thumbnail == "/src/demos/rotating-cube/thumbnail.jpg";
    FirstPath();
  }

  lemma FirstPath()
    ensures ThumbnailOf("rotating-cube") == "/src/demos/rotating-cube/thumbnail.jpg"
  {
  }

  lemma SecondThumbnail()
    ensures Examples[1].thumbnail == ThumbnailOf(Examples[1].id)
  {
    assert Examples[1].id == "animated-line";
    assert Examples[1].thumbnail == "/src/demos/animated-line/thumbnail.jpg";
    SecondPath();
  }

  lemma SecondPath()
    ensures ThumbnailOf("animated-line") == "/src/demos/animated-line/thumbnail.jpg"
  {
  }

  /** With distinct ids, each entry is found by its own id. */
  lemma FindsEachEntry(k: nat)
    requires k < |Examples|
    ensures GetExampleById(Examples[k].id) == Some(Examples[k])
  {
    TableShape();
  }
}
