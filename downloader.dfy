/** The downloader's task building (downloader/index.js): every URL of the sitemap becomes a
    download task naming the local file the page is saved to. Parsing a URL (`new URL`) is
    not modelled; its outcome enters as `protocolOf`, the `protocol` property of the parsed
    URL, or `None` when the constructor throws. */
module Downloader {
  import opened Wrappers
  import opened JsString

  // ---------------------------------------------------------------------------
  // getOutfile

  /** No two consecutive slashes anywhere. */
  predicate NoDoubleSlash(s: string) {
    forall i :: 0 <= i < |s| ==> !SlashesAt(s, i)
  }

  /** `s.replace(/\//g, '_').replace(/\./g, '_')`: every `/` and every `.` becomes `_`, and
      every other character stays where it is. */
  function Flatten(s: string): (r: string)
    ensures |r| == |s|
    ensures forall k :: 0 <= k < |s| ==> r[k] == if s[k] == '/' || s[k] == '.' then '_' else s[k]
  {
    if s == [] then []
    else Flatten(s[..|s| - 1]) + [if s[|s| - 1] == '/' || s[|s| - 1] == '.' then '_' else s[|s| - 1]]
  }

  /** `url.substring(url.lastIndexOf('//') + 2)`: what follows the last `//`. Without any
      `//` the index is -1, so the cut falls after the first character. */
  function AfterLastSlashes(url: string): (tail: string)
    ensures |tail| <= |url| && tail == url[|url| - |tail|..]
    ensures NoDoubleSlash(tail)
  {
    var i := LastIndexOfSlashes(url);
    var tail := SubstringFrom(url, i + 2);
    assert forall k :: SlashesAt(tail, k) ==> SlashesAt(url, i + 2 + k);
    tail
  }

  /** `getOutfile(url)`: the local file name of a page. It is the text after the last `//`
      with `/` and `.` flattened to `_`, followed by `.html`; so it names a plain file, never
      a sub-directory, and its only `.` is the one of the extension. */
  function GetOutfile(url: string): (outfile: string)
    ensures |outfile| >= 5 && outfile[|outfile| - 5..] == ".html"
    ensures var stem := outfile[..|outfile| - 5];
      '/' !in stem && '.' !in stem && |stem| == |AfterLastSlashes(url)|
    ensures '/' !in outfile
  {
    var stem := Flatten(AfterLastSlashes(url));
    assert forall k :: 0 <= k < |stem| ==> stem[k] != '/' && stem[k] != '.';
    var outfile := stem + ".html";
    assert outfile[..|outfile| - 5] == stem && outfile[|outfile| - 5..] == ".html";
    outfile
  }

  /** Everything up to and including the last `//` is discarded: whatever precedes a `//`
      that is followed by a rest with no further `//`, the file name is the flattened rest. */
  lemma SchemeDiscarded(prefix: string, rest: string)
    requires NoDoubleSlash(rest) && (rest == [] || rest[0] != '/')
    ensures GetOutfile(prefix + "//" + rest) == Flatten(rest) + ".html"
  {
    var url := prefix + "//" + rest;
    var n := |prefix|;
    var i := LastIndexOfSlashes(url);
    assert SlashesAt(url, n);
    assert !SlashesAt(url, n + 1) by {
      if n + 2 < |url| {
        assert url[n + 2] == rest[0];
      }
    }
    forall k | n + 2 <= k
      ensures !SlashesAt(url, k)
    {
      if SlashesAt(url, k) {
        assert url[k] == rest[k - n - 2] && url[k + 1] == rest[k - n - 1];
        assert SlashesAt(rest, k - n - 2);
      }
    }
    assert i == n;
    assert url[n + 2..] == rest;
  }

  /** The same page over `http` and over `https` is saved to the same file. */
  lemma SameFileForBothSchemes(rest: string)
    requires NoDoubleSlash(rest) && (rest == [] || rest[0] != '/')
    ensures GetOutfile("http://" + rest) == GetOutfile("https://" + rest)
  {
    assert "http://" + rest == "http:" + "//" + rest;
    assert "https://" + rest == "https:" + "//" + rest;
    SchemeDiscarded("http:", rest);
    SchemeDiscarded("https:", rest);
  }

  /** A page `http://a?b` whose separator `?` is a `.` or a `/` is saved to `a_b.html`. */
  lemma OneSeparator(c: char)
    requires c == '.' || c == '/'
    ensures GetOutfile("http://a" + [c] + "b") == "a_b.html"
  {
    var rest := "a" + [c] + "b";
    assert Flatten(rest) == "a_b" by {
      assert rest[..2] == "a" + [c] && rest[..2][..1] == "a" && "a"[..0] == [];
    }
    assert NoDoubleSlash(rest) by {
      assert !SlashesAt(rest, 0) && !SlashesAt(rest, 1);
    }
    assert "http://a" + [c] + "b" == "http:" + "//" + rest;
    SchemeDiscarded("http:", rest);
  }

  /** File names are not unique: two URLs that differ only by a `.` against a `/` at one
      position share a file. */
  lemma OutfileCollision()
    ensures "http://a.b" != "http://a/b"
    ensures GetOutfile("http://a.b") == GetOutfile("http://a/b") == "a_b.html"
  {
    assert "http://a.b"[8] != "http://a/b"[8];
    assert "http://a.b" == "http://a" + ['.'] + "b";
    assert "http://a/b" == "http://a" + ['/'] + "b";
    OneSeparator('.');
    OneSeparator('/');
  }

  /** A URL with no `//` at all loses its first character: `lastIndexOf` gives -1 and the
      cut falls at index 1. */
  lemma NoSchemeDropsFirstCharacter(url: string)
    requires url != [] && NoDoubleSlash(url)
    ensures GetOutfile(url) == Flatten(url[1..]) + ".html"
  {
    assert LastIndexOfSlashes(url) == -1;
  }

  // ---------------------------------------------------------------------------
  // The URL → task pipeline

  /** A download task: the URL and the file its page is saved to. */
  datatype Task = Task(url: string, outfile: string)

  /** `(u && u.toString().trim()) || ''` on a sitemap string. */
  function Normalize(u: string): (r: string)
    ensures r == Trim(u)
  {
    if u == "" then "" else Trim(u)
  }

  /** The first `map`: every sitemap string trimmed, in order. */
  function TrimAll(urls: seq<string>): (r: seq<string>)
    ensures |r| == |urls|
    ensures forall k :: 0 <= k < |urls| ==> r[k] == Trim(urls[k])
  {
    seq(|urls|, k requires 0 <= k < |urls| => Normalize(urls[k]))
  }

  /** `parsed.protocol` is `http:` or `https:`; a URL that does not parse is rejected too. */
  predicate Supported(protocol: Option<string>) {
    protocol == Some("http:") || protocol == Some("https:")
  }

  /** The `filter`, `map` and `filter` applied to one trimmed string: an empty string is
      dropped, a URL that does not parse or whose protocol is not HTTP(S) is dropped, and
      any other makes a task. */
  function TaskFor(url: string, protocolOf: string -> Option<string>): (r: Option<Task>)
  {
    if |url| == 0 then None
    else if !Supported(protocolOf(url)) then None
    else Some(Task(url, GetOutfile(url)))
  }

  /** The tasks of the trimmed strings that survive, in order. */
  function TasksOf(trimmed: seq<string>, protocolOf: string -> Option<string>): (tasks: seq<Task>)
    ensures |tasks| <= |trimmed|
  {
    if trimmed == [] then []
    else
      var t := TaskFor(trimmed[|trimmed| - 1], protocolOf);
      TasksOf(trimmed[..|trimmed| - 1], protocolOf) + (if t.Some? then [t.value] else [])
  }

  /** The whole `map`/`filter`/`map`/`filter` chain over the sitemap strings. */
  function BuildTasks(urls: seq<string>, protocolOf: string -> Option<string>): (tasks: seq<Task>)
    ensures |tasks| <= |urls|
  {
    TasksOf(TrimAll(urls), protocolOf)
  }

  /** A task the pipeline can produce: a non-empty trimmed URL of a supported protocol, and
      the file name `getOutfile` derives from it. */
  predicate WellFormed(t: Task, protocolOf: string -> Option<string>) {
    t.url != "" && Trimmed(t.url) && Supported(protocolOf(t.url)) && t.outfile == GetOutfile(t.url)
  }

  /** Every task is well formed. */
  lemma {:induction false} TasksWellFormed(urls: seq<string>, protocolOf: string -> Option<string>)
    ensures forall t :: t in BuildTasks(urls, protocolOf) ==> WellFormed(t, protocolOf)
  {
    forall t | t in BuildTasks(urls, protocolOf)
      ensures WellFormed(t, protocolOf)
    {
      var i := TaskSource(urls, protocolOf, t);
    }
  }

  /** The trimming `map` works element by element. */
  lemma TrimAllAppend(a: seq<string>, b: seq<string>)
    ensures TrimAll(a + b) == TrimAll(a) + TrimAll(b)
  {
    assert forall k :: 0 <= k < |a + b| ==> TrimAll(a + b)[k] == (TrimAll(a) + TrimAll(b))[k] by {
      forall k | 0 <= k < |a + b|
        ensures TrimAll(a + b)[k] == (TrimAll(a) + TrimAll(b))[k]
      {
        if k < |a| {
          assert (a + b)[k] == a[k];
        } else {
          assert (a + b)[k] == b[k - |a|];
        }
      }
    }
  }

  /** The filtering steps work element by element. */
  lemma {:induction false} TasksOfAppend(a: seq<string>, b: seq<string>, protocolOf: string -> Option<string>)
    ensures TasksOf(a + b, protocolOf) == TasksOf(a, protocolOf) + TasksOf(b, protocolOf)
    decreases |b|
  {
    if b == [] {
      assert a + b == a;
    } else {
      var ab := a + b;
      assert ab[..|ab| - 1] == a + b[..|b| - 1] && ab[|ab| - 1] == b[|b| - 1];
      TasksOfAppend(a, b[..|b| - 1], protocolOf);
    }
  }

  /** The chain works element by element: the tasks of two runs of strings are the tasks of
      the first followed by those of the second. */
  lemma BuildTasksAppend(a: seq<string>, b: seq<string>, protocolOf: string -> Option<string>)
    ensures BuildTasks(a + b, protocolOf) == BuildTasks(a, protocolOf) + BuildTasks(b, protocolOf)
  {
    TrimAllAppend(a, b);
    TasksOfAppend(TrimAll(a), TrimAll(b), protocolOf);
  }

  /** One string gives the task of its trimmed text, or none. */
  lemma BuildTasksSingle(u: string, protocolOf: string -> Option<string>)
    ensures BuildTasks([u], protocolOf) ==
      if TaskFor(Trim(u), protocolOf).Some? then [TaskFor(Trim(u), protocolOf).value] else []
  {
    var trimmed := TrimAll([u]);
    assert trimmed == [Trim(u)];
    assert trimmed[..0] == [];
  }

  /** Duplicates are kept: a sitemap listed twice gives every task twice. */
  lemma NoDeduplication(urls: seq<string>, protocolOf: string -> Option<string>)
    ensures BuildTasks(urls + urls, protocolOf) == BuildTasks(urls, protocolOf) + BuildTasks(urls, protocolOf)
    ensures |BuildTasks(urls + urls, protocolOf)| == 2 * |BuildTasks(urls, protocolOf)|
  {
    BuildTasksAppend(urls, urls, protocolOf);
  }

  /** Nothing is made up: every task comes from a trimmed string. */
  lemma {:induction false} TasksOfSource(trimmed: seq<string>, protocolOf: string -> Option<string>, t: Task)
    returns (i: nat)
    requires t in TasksOf(trimmed, protocolOf)
    ensures i < |trimmed| && TaskFor(trimmed[i], protocolOf) == Some(t)
  {
    var init := trimmed[..|trimmed| - 1];
    if t in TasksOf(init, protocolOf) {
      i := TasksOfSource(init, protocolOf, t);
    } else {
      i := |trimmed| - 1;
    }
  }

  /** Nothing is made up: every task is the task of some input string, and so its URL is
      that string trimmed, non-empty and of protocol `http:` or `https:`, and its file is the
      one `getOutfile` derives from the URL. */
  lemma TaskSource(urls: seq<string>, protocolOf: string -> Option<string>, t: Task) returns (i: nat)
    requires t in BuildTasks(urls, protocolOf)
    ensures i < |urls| && TaskFor(Trim(urls[i]), protocolOf) == Some(t)
    ensures t.url == Trim(urls[i]) && WellFormed(t, protocolOf)
  {
    i := TasksOfSource(TrimAll(urls), protocolOf, t);
  }

  /** Nothing that survives the filters is lost, at the level of trimmed strings. */
  lemma {:induction false} TasksOfSurvivors(trimmed: seq<string>, protocolOf: string -> Option<string>, i: nat)
    requires i < |trimmed| && TaskFor(trimmed[i], protocolOf).Some?
    ensures TaskFor(trimmed[i], protocolOf).value in TasksOf(trimmed, protocolOf)
  {
    var init := trimmed[..|trimmed| - 1];
    if i < |init| {
      assert init[i] == trimmed[i];
      TasksOfSurvivors(init, protocolOf, i);
    }
  }

  /** Nothing that survives is lost: every input string that survives has its task among
      the tasks. */
  lemma SurvivorsHaveTasks(urls: seq<string>, protocolOf: string -> Option<string>, i: nat)
    requires i < |urls| && TaskFor(Trim(urls[i]), protocolOf).Some?
    ensures TaskFor(Trim(urls[i]), protocolOf).value in BuildTasks(urls, protocolOf)
  {
    TasksOfSurvivors(TrimAll(urls), protocolOf, i);
  }
}
