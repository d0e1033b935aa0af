/** The build and dev-server configuration (vite.config.js): the demo
    directories, the multi-page build input and the HTML transform of the
    dev server. `resolve(__dirname, p)` is modelled as `root + "/" + p`. */
module ViteConfig {
  import opened Text

  /** One name of the `demos` folder, and whether `statSync` says it is a directory. */
  datatype Node = Node(name: string, isDirectory: bool)

  /** `getDemoDirs`: the names of the sub-directories of `demos`, in listing
      order; a missing folder (`None`) gives none. */
  function GetDemoDirs(listing: Option<seq<Node>>): (r: seq<string>)
    ensures listing.None? ==> r == []
    ensures listing.Some? ==> |r| <= |listing.value|
    ensures listing.Some? ==>
      forall n :: n in r <==> exists d :: d in listing.value && d.isDirectory && d.name == n
  {
    match listing
    case None => []
    case Some(nodes) => DirectoryNames(nodes)
  }

  function DirectoryNames(nodes: seq<Node>): (r: seq<string>)
    ensures |r| <= |nodes|
    ensures forall n :: n in r <==> exists d :: d in nodes && d.isDirectory && d.name == n
  {
    if |nodes| == 0 then []
    else
      var rest := DirectoryNames(nodes[1..]);
      assert forall d :: d in nodes <==> d == nodes[0] || d in nodes[1..];
      if nodes[0].isDirectory then [nodes[0].name] + rest else rest
  }

  function Resolve(root: string, relative: string): string
  {
    root + "/" + relative
  }

  function DemoEntry(root: string, demo: string): string
  {
    Resolve(root, "demos/" + demo + "/index.html")
  }

  /** `generateInput`: the entry `main` for the root page, then one entry per
      demo directory; a demo named `main` overwrites the root entry. */
  method GenerateInput(root: string, listing: Option<seq<Node>>) returns (input: map<string, string>)
    ensures input.Keys == {"main"} + (set d | d in GetDemoDirs(listing))
    ensures forall d :: d in GetDemoDirs(listing) ==> input[d] == DemoEntry(root, d)
    ensures "main" !in GetDemoDirs(listing) ==> input["main"] == Resolve(root, "index.html")
  {
    input := map["main" := Resolve(root, "index.html")];
    var demos := GetDemoDirs(listing);
    for i := 0 to |demos|
      invariant input.Keys == {"main"} + (set d | d in demos[..i])
      invariant forall d :: d in demos[..i] ==> input[d] == DemoEntry(root, d)
      invariant "main" !in demos[..i] ==> input["main"] == Resolve(root, "index.html")
    {
      assert demos[..i + 1] == demos[..i] + [demos[i]];
      input := input[demos[i] := DemoEntry(root, demos[i])];
    }
    assert demos[..|demos|] == demos;
  }

  /** The style block the dev server injects. */
  const NoScrollStyle: string :=
    "<style>\n          body { margin: 0; overflow: hidden; }\n          canvas { display: block; }\n        </style>\n        "

  /** `transformIndexHtml`: the style block goes right before the first
      `</head>`; a page without `</head>` is returned unchanged. */
  function TransformIndexHtml(html: string): (r: string)
    ensures IndexOf(html, "</head>").None? ==> r == html
    ensures IndexOf(html, "</head>").Some? ==>
      var i := IndexOf(html, "</head>").value;
      r == html[..i] + NoScrollStyle + html[i..] &&
      r[..i] + r[i + |NoScrollStyle|..] == html
  {
    var r := ReplaceFirst(html, "</head>", NoScrollStyle + "</head>");
    if IndexOf(html, "</head>").Some? then
      var i := IndexOf(html, "</head>").value;
      InsertBeforeFirst(html, "</head>", NoScrollStyle);
      assert r[..i] == html[..i];
      assert r[i + |NoScrollStyle|..] == html[i..];
      assert html == html[..i] + html[i..];
      r
    else r
  }
}
