/** `find(path, start_str, end_str)` (utils.py): the regular files of one
    directory whose names match `^start_str.*?end_str$`, as full paths, in
    the order the directory listing gives them. The listing is an input:
    each entry carries its name and whether `os.path.isfile` holds for it. */
module FileSearch {
  import opened PyText

  /** One name from `os.listdir(path)` and whether it is a regular file. */
  datatype Entry = Entry(name: string, isFile: bool)

  /** The characters that have a meaning of their own in a Python regular
      expression outside a character class. */
  const RegexMeta: set<char> := {'.', '^', '$', '*', '+', '?', '{', '}', '[', ']', '\\', '|', '(', ')'}

  /** A prefix or suffix that the pattern reads literally. */
  predicate Literal(s: string) {
    forall i :: 0 <= i < |s| ==> s[i] !in RegexMeta
  }

  /** `name` is `startStr`, then text without a line break (what `.*?`
      can match), then `endStr`. */
  predicate Framed(name: string, startStr: string, endStr: string) {
    && |name| >= |startStr| + |endStr|
    && StartsWith(name, startStr)
    && EndsWith(name, endStr)
    && '\n' !in name[|startStr|..|name| - |endStr|]
  }

  /** `re.compile('^' + startStr + '.*?' + endStr + '$').search(name)`
      succeeds, for literal `startStr` and `endStr`: `$` matches at the end
      of the text or just before a line break that ends it. A match always
      starts with `startStr`; for a name without a line break the pattern
      is the plain test of prefix, suffix, and enough length that the two
      do not overlap. */
  function PatternMatches(name: string, startStr: string, endStr: string): (m: bool)
    ensures m ==> StartsWith(name, startStr)
    ensures '\n' !in name ==>
      (m <==> |name| >= |startStr| + |endStr| && StartsWith(name, startStr) && EndsWith(name, endStr))
  {
    || Framed(name, startStr, endStr)
    || (|name| > 0 && name[|name| - 1] == '\n' && Framed(name[..|name| - 1], startStr, endStr))
  }

  /** The test applied to each listing entry: `os.path.isfile` and a
      match. A kept entry is a regular file whose name starts with
      `startStr`. */
  function Accepts(x: Entry, startStr: string, endStr: string): (a: bool)
    ensures a ==> x.isFile && StartsWith(x.name, startStr)
    ensures !x.isFile ==> !a
  {
    x.isFile && PatternMatches(x.name, startStr, endStr)
  }

  /** The full paths `find` returns for a listing, in listing order. */
  function Found(path: string, startStr: string, endStr: string, listing: seq<Entry>): (r: seq<string>)
    ensures |r| <= |listing|
  {
    if listing == [] then []
    else
      var prev := Found(path, startStr, endStr, listing[..|listing| - 1]);
      var x := listing[|listing| - 1];
      if Accepts(x, startStr, endStr) then prev + [PathJoin(path, x.name)] else prev
  }

  /** The positions in the listing of the entries `find` keeps. */
  function Selected(startStr: string, endStr: string, listing: seq<Entry>): seq<nat> {
    if listing == [] then []
    else
      var prev := Selected(startStr, endStr, listing[..|listing| - 1]);
      if Accepts(listing[|listing| - 1], startStr, endStr) then prev + [|listing| - 1] else prev
  }

  /** The kept positions rise strictly, and a position is kept exactly when
      its entry is a regular file whose name matches. */
  lemma {:induction false} SelectedSpec(startStr: string, endStr: string, listing: seq<Entry>)
    ensures var sel := Selected(startStr, endStr, listing);
      && (forall k :: 0 <= k < |sel| ==> sel[k] < |listing|)
      && (forall k, l :: 0 <= k < l < |sel| ==> sel[k] < sel[l])
      && (forall i :: 0 <= i < |listing| ==> (i in sel <==> Accepts(listing[i], startStr, endStr)))
  {
    if listing != [] {
      var init := listing[..|listing| - 1];
      SelectedSpec(startStr, endStr, init);
      assert forall i :: 0 <= i < |init| ==> init[i] == listing[i];
    }
  }

  /** `find` returns, for each kept position in turn, the path of that
      entry: the result is the listing filtered in order. */
  lemma {:induction false} FoundIsSelection(path: string, startStr: string, endStr: string, listing: seq<Entry>)
    ensures var sel := Selected(startStr, endStr, listing);
      var r := Found(path, startStr, endStr, listing);
      && |r| == |sel|
      && forall k :: 0 <= k < |sel| ==> sel[k] < |listing| && r[k] == PathJoin(path, listing[sel[k]].name)
  {
    if listing != [] {
      var init := listing[..|listing| - 1];
      FoundIsSelection(path, startStr, endStr, init);
      SelectedSpec(startStr, endStr, init);
    }
  }

  /** A path is in the result exactly when some regular file of the listing
      with a matching name joins to it. */
  lemma FoundMembership(path: string, startStr: string, endStr: string, listing: seq<Entry>, p: string)
    ensures p in Found(path, startStr, endStr, listing) <==>
      exists i :: 0 <= i < |listing| && Accepts(listing[i], startStr, endStr) && p == PathJoin(path, listing[i].name)
  {
    var sel := Selected(startStr, endStr, listing);
    var r := Found(path, startStr, endStr, listing);
    FoundIsSelection(path, startStr, endStr, listing);
    SelectedSpec(startStr, endStr, listing);
    if p in r {
      var k :| 0 <= k < |r| && r[k] == p;
      assert Accepts(listing[sel[k]], startStr, endStr);
    }
    if exists i :: 0 <= i < |listing| && Accepts(listing[i], startStr, endStr) && p == PathJoin(path, listing[i].name) {
      var i :| 0 <= i < |listing| && Accepts(listing[i], startStr, endStr) && p == PathJoin(path, listing[i].name);
      assert i in sel;
      var k :| 0 <= k < |sel| && sel[k] == i;
      assert r[k] == p;
    }
  }

  /** `find(path, start_str, end_str)`: walks the listing once, appending
      the path of every regular file whose name matches. */
  method Find(path: string, startStr: string, endStr: string, listing: seq<Entry>) returns (fileList: seq<string>)
    requires Literal(startStr) && Literal(endStr)
    ensures fileList == Found(path, startStr, endStr, listing)
  {
    fileList := [];
    var i := 0;
    while i < |listing|
      invariant 0 <= i <= |listing|
      invariant fileList == Found(path, startStr, endStr, listing[..i])
    {
      var fileName := listing[i].name;
      assert listing[..i + 1][..i] == listing[..i];
      if listing[i].isFile && PatternMatches(fileName, startStr, endStr) {
        fileList := fileList + [PathJoin(path, fileName)];
      }
      i := i + 1;
    }
    assert listing[..|listing|] == listing;
  }

  /** The scenario of the logger test: in a directory holding
      `test_hobject.log` and `other.txt`, searching for names that start
      with `test` and end with `log` yields the log file's path alone. */
  lemma FindsTestLog(cwd: string)
    ensures Found(cwd, "test", "log", [Entry("test_hobject.log", true), Entry("other.txt", true)])
      == [PathJoin(cwd, "test_hobject.log")]
  {
    var log := Entry("test_hobject.log", true);
    var other := Entry("other.txt", true);
    assert Accepts(log, "test", "log") by {
      assert '\n' !in log.name;
      assert log.name[..4] == "test";
      assert log.name[|log.name| - 3..] == "log";
    }
    assert !Accepts(other, "test", "log") by {
      assert other.name[0] != "test"[0];
    }
    assert [log, other][..1] == [log];
    assert [log][..0] == [];
    assert Found(cwd, "test", "log", [log]) == [PathJoin(cwd, log.name)];
  }
}
