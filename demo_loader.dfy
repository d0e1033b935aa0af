/** The demo-name extraction of the common demo loader
    (src/demos/common/demo-loader.js, `getDemoPath`). */
module DemoLoader {
  import opened Text

  /** `path.split("/")[length - 2] || ""`: the second-to-last segment of the
      path, or "" when the path has fewer than two segments. */
  function GetDemoPath(path: string): (name: string)
    ensures '/' !in name
    ensures '/' !in path ==> name == ""
  {
    var parts := Split(path, '/');
    if |parts| >= 2 then parts[|parts| - 2] else ""
  }

  /** A directory URL ending in a slash names the directory before it. */
  lemma DirectoryUrl(prefix: string, name: string)
    requires '/' !in name
    ensures GetDemoPath(prefix + "/" + name + "/") == name
  {
    LastTwoSegments(prefix, name, "");
    assert prefix + "/" + name + "/" == prefix + ['/'] + (name + ['/'] + "");
  }

  /** A file URL names the directory that holds the file. */
  lemma FileUrl(prefix: string, name: string, file: string)
    requires '/' !in name && '/' !in file
    ensures GetDemoPath(prefix + "/" + name + "/" + file) == name
  {
    LastTwoSegments(prefix, name, file);
    assert prefix + "/" + name + "/" + file == prefix + ['/'] + (name + ['/'] + file);
  }

  /** The segment before a last segment without slashes. */
  lemma LastTwoSegments(prefix: string, name: string, last: string)
    requires '/' !in name && '/' !in last
    ensures GetDemoPath(prefix + ['/'] + (name + ['/'] + last)) == name
  {
    var rest := name + ['/'] + last;
    assert Split(rest, '/') == [name, last] by {
      SplitAround(name, last, '/');
    }
    SplitAround(prefix, rest, '/');
    var parts := Split(prefix, '/') + [name, last];
    assert parts[|parts| - 2] == name;
  }

  /** `/x/rotating-cube/` gives `rotating-cube`. */
  lemma ExampleDirectoryPath()
    ensures GetDemoPath("/x/rotating-cube/") == "rotating-cube"
  {
    var name := "rotating-cube";
    assert "/x/rotating-cube/" == "/x" + "/" + name + "/";
    DirectoryUrl("/x", name);
  }

  /** `/x/rotating-cube/index.html` gives `rotating-cube`. */
  lemma ExampleFilePath()
    ensures GetDemoPath("/x/rotating-cube/index.html") == "rotating-cube"
  {
    var name := "rotating-cube";
    assert "/x/rotating-cube/index.html" == "/x" + "/" + name + "/" + "index.html";
    FileUrl("/x", name, "index.html");
  }

  /** The root path `/` has an empty second-to-last segment. */
  lemma RootPath()
    ensures GetDemoPath("/") == ""
  {
    SplitAround("", "", '/');
    assert "/" == "" + ['/'] + "";
  }
}
