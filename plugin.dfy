/** The plugin registry surface: the identity values every plugin carries,
    the exception that aggregates duplicate ids, and the explorer that walks
    several plugin roots with one shared duplicates list. */
module Plugin {
  import opened Wrappers

  // ---------------------------------------------------------------------
  // Identity values. Their internals live outside this model: an id is an
  // opaque value that knows how to render itself, a version is opaque.
  // ---------------------------------------------------------------------

  /** An opaque identifier; `text` is what its toString() renders. */
  datatype UniqueId = UniqueId(text: string) {
    function ToString(): string { text }
  }

  datatype Info = Info(id: UniqueId, name: string, description: string)

  datatype Version = Version(text: string)

  /** An Info together with the version of the module that declared it. */
  datatype PluginInfo = PluginInfo(base: Info, version: Version)

  /** The copy constructor: the Info part and the version are both taken over. */
  function CopyPluginInfo(p: PluginInfo): (r: PluginInfo)
    ensures r.base == p.base
    ensures r.version == p.version
  {
    PluginInfo(p.base, p.version)
  }

  /** The constructor from a bare Info: the version is the product's current
      one, which is a parameter here because Version is defined elsewhere. */
  function PluginInfoOf(info: Info, product: Version): (r: PluginInfo)
    ensures r.base == info
    ensures r.version == product
  {
    PluginInfo(info, product)
  }

  /** The default of Plugin<T>::hasWindow: no configuration has its own UI. */
  function DefaultHasWindow(id: UniqueId): (b: bool)
    ensures !b
  {
    false
  }

  // ---------------------------------------------------------------------
  // The text of PluginTreeException::message().
  // ---------------------------------------------------------------------

  const Header: string := "Duplicate ids, the components with these Ids will be ignored: \n"

  /** The line written for one duplicate: "<id>, name: <name>" and a newline. */
  function EntryLine(i: Info): string
  {
    i.id.ToString() + ", name: " + i.name + "\n"
  }

  /** The line of each entry of `infos`, in list order. */
  function EntryLines(infos: seq<Info>): seq<string>
  {
    seq(|infos|, k requires 0 <= k < |infos| => EntryLine(infos[k]))
  }

  /** The strings of `ss` written one after the other. */
  function Flatten(ss: seq<string>): string
  {
    if ss == [] then "" else Flatten(ss[..|ss| - 1]) + ss[|ss| - 1]
  }

  /** The entry lines of `infos`, in list order. */
  function Lines(infos: seq<Info>): string
  {
    Flatten(EntryLines(infos))
  }

  function MessageText(infos: seq<Info>): string
  {
    Header + Lines(infos)
  }

  lemma {:induction false} FlattenConcat(a: seq<string>, b: seq<string>)
    ensures Flatten(a + b) == Flatten(a) + Flatten(b)
    decreases |b|
  {
    if b == [] {
      assert a + b == a;
    } else {
      var b', last := b[..|b| - 1], b[|b| - 1];
      assert (a + b)[..|a + b| - 1] == a + b';
      assert (a + b)[|a + b| - 1] == last;
      FlattenConcat(a, b');
    }
  }

  /** The lines of a concatenated list are the lines of each part, in order. */
  lemma LinesConcat(a: seq<Info>, b: seq<Info>)
    ensures Lines(a + b) == Lines(a) + Lines(b)
  {
    assert EntryLines(a + b) == EntryLines(a) + EntryLines(b);
    FlattenConcat(EntryLines(a), EntryLines(b));
  }

  /** Appending an entry appends its line. */
  lemma LinesSnoc(xs: seq<Info>, x: Info)
    ensures Lines(xs + [x]) == Lines(xs) + EntryLine(x)
  {
    LinesConcat(xs, [x]);
    assert EntryLines([x]) == [EntryLine(x)];
    assert [EntryLine(x)][..0] == [];
    assert Flatten([EntryLine(x)]) == Flatten([]) + EntryLine(x);
  }

  /** Read from the front: the first entry's line comes first, then the rest. */
  lemma LinesCons(i: Info, rest: seq<Info>)
    ensures Lines([i] + rest) == EntryLine(i) + Lines(rest)
  {
    LinesConcat([i], rest);
    assert EntryLines([i]) == [EntryLine(i)];
    assert [EntryLine(i)][..0] == [];
    assert Flatten([EntryLine(i)]) == Flatten([]) + EntryLine(i);
  }

  /** The number of occurrences of `c` in `s`. */
  function Count(s: string, c: char): nat
  {
    if s == [] then 0 else Count(s[..|s| - 1], c) + (if s[|s| - 1] == c then 1 else 0)
  }

  lemma {:induction false} CountConcat(a: string, b: string, c: char)
    ensures Count(a + b, c) == Count(a, c) + Count(b, c)
    decreases |b|
  {
    if b == [] {
      assert a + b == a;
    } else {
      assert (a + b)[..|a + b| - 1] == a + b[..|b| - 1];
      assert (a + b)[|a + b| - 1] == b[|b| - 1];
      CountConcat(a, b[..|b| - 1], c);
    }
  }

  lemma {:induction false} CountAbsent(s: string, c: char)
    requires c !in s
    ensures Count(s, c) == 0
    decreases |s|
  {
    if s != [] {
      var t := s[..|s| - 1];
      assert c !in t by {
        forall k | 0 <= k < |t| ensures t[k] != c {
          assert t[k] == s[k];
        }
      }
      CountAbsent(t, c);
    }
  }

  /** A line break only within the text it introduces: no id or name of the
      list contains one. */
  ghost predicate SingleLineEntries(infos: seq<Info>)
  {
    forall k :: 0 <= k < |infos| ==> '\n' !in infos[k].id.text && '\n' !in infos[k].name
  }

  /** When no id or name contains a line break, the message has exactly one
      line break per duplicate beyond those of the header: the header line,
      then one line per duplicate. */
  lemma MessageLineCount(infos: seq<Info>)
    requires SingleLineEntries(infos)
    ensures Count(MessageText(infos), '\n') == Count(Header, '\n') + |infos|
  {
    CountConcat(Header, Lines(infos), '\n');
    LinesLineCount(infos);
  }

  lemma {:induction false} LinesLineCount(infos: seq<Info>)
    requires SingleLineEntries(infos)
    ensures Count(Lines(infos), '\n') == |infos|
    decreases |infos|
  {
    if infos != [] {
      var init, last := infos[..|infos| - 1], infos[|infos| - 1];
      assert SingleLineEntries(init) by {
        forall k | 0 <= k < |init| ensures '\n' !in init[k].id.text && '\n' !in init[k].name {
          assert init[k] == infos[k];
        }
      }
      LinesLineCount(init);
      var front := last.id.ToString() + ", name: " + last.name;
      assert EntryLine(last) == front + "\n";
      assert '\n' !in front by {
        assert '\n' !in last.id.text && '\n' !in last.name;
        assert '\n' !in ", name: ";
        assert front == last.id.text + ", name: " + last.name;
      }
      CountAbsent(front, '\n');
      CountConcat(front, "\n", '\n');
      assert Count("\n", '\n') == 1 by { assert "\n"[..0] == ""; }
      assert infos == init + [last];
      LinesSnoc(init, last);
      CountConcat(Lines(init), EntryLine(last), '\n');
    }
  }

  // ---------------------------------------------------------------------
  // PluginTreeException: an append-only list of duplicate Infos.
  // ---------------------------------------------------------------------

  class PluginTreeException {
    /** The duplicates, in the order they were added (public in the C++ class,
        which is also what info() returns). */
    var info: seq<Info>

    constructor ()
      ensures info == []
    {
      info := [];
    }

    constructor FromInfo(i: Info)
      ensures info == [i]
    {
      info := [];
      new;
      Add(i);
    }

    constructor FromList(infos: seq<Info>)
      ensures info == infos
    {
      info := infos;
    }

    /** Appends at the end; nothing is merged or deduplicated. */
    method Add(i: Info)
      modifies this
      ensures info == old(info) + [i]
    {
      info := info + [i];
    }

    function Empty(): (b: bool)
      reads this
      ensures b <==> |info| == 0
    {
      info == []
    }

    /** The message: the header line, then one line per duplicate in order. */
    method Message() returns (s: string)
      ensures s == MessageText(info)
    {
      s := Header;
      var n := 0;
      while n < |info|
        invariant 0 <= n <= |info|
        invariant s == Header + Lines(info[..n])
      {
        assert info[..n + 1] == info[..n] + [info[n]];
        LinesSnoc(info[..n], info[n]);
        s := s + EntryLine(info[n]);
        n := n + 1;
      }
      assert info[..n] == info;
    }
  }

  // ---------------------------------------------------------------------
  // PluginExplorer.
  // ---------------------------------------------------------------------

  /** One call of the per-root exploration: a root and the options it got. */
  datatype RootCall = RootCall(path: string, ext: string, recursive: bool)

  /** The calls the multi-path explore makes: one per path, in index order,
      all with the same extension and recursion flag. */
  function Calls(paths: seq<string>, ext: string, recursive: bool): seq<RootCall>
  {
    seq(|paths|, i requires 0 <= i < |paths| => RootCall(paths[i], ext, recursive))
  }

  /** The calls for a concatenated path list are those for each part, in order. */
  lemma CallsConcat(a: seq<string>, b: seq<string>, ext: string, recursive: bool)
    ensures Calls(a + b, ext, recursive) == Calls(a, ext, recursive) + Calls(b, ext, recursive)
  {
    assert forall i :: 0 <= i < |a + b| ==> (a + b)[i] == if i < |a| then a[i] else b[i - |a|];
  }

  /** The duplicates that the calls `calls` append in turn, when `history`
      is what this explorer explored before them; `step` gives what one
      per-root exploration appends. */
  function Accumulated(step: (seq<RootCall>, RootCall) -> seq<Info>, history: seq<RootCall>,
                       calls: seq<RootCall>): seq<Info>
    decreases |calls|
  {
    if calls == [] then [] else step(history, calls[0]) + Accumulated(step, history + [calls[0]], calls[1..])
  }

  /** Exploring a concatenation of path lists accumulates the duplicates of
      the first list, then those of the second. */
  lemma {:induction false} AccumulatedConcat(step: (seq<RootCall>, RootCall) -> seq<Info>,
                                             history: seq<RootCall>, a: seq<RootCall>, b: seq<RootCall>)
    ensures Accumulated(step, history, a + b)
         == Accumulated(step, history, a) + Accumulated(step, history + a, b)
    decreases |a|
  {
    if a == [] {
      assert a + b == b;
      assert history + a == history;
    } else {
      assert (a + b)[0] == a[0];
      assert (a + b)[1..] == a[1..] + b;
      assert history + [a[0]] + a[1..] == history + a;
      AccumulatedConcat(step, history + [a[0]], a[1..], b);
    }
  }

  /** Exploring the paths a + b in one call collects what exploring a
      collects, then what exploring b collects once a has been explored. */
  lemma ExploreConcat(step: (seq<RootCall>, RootCall) -> seq<Info>, history: seq<RootCall>,
                      a: seq<string>, b: seq<string>, ext: string, recursive: bool)
    ensures Accumulated(step, history, Calls(a + b, ext, recursive))
         == Accumulated(step, history, Calls(a, ext, recursive)) +
            Accumulated(step, history + Calls(a, ext, recursive), Calls(b, ext, recursive))
  {
    CallsConcat(a, b, ext, recursive);
    AccumulatedConcat(step, history, Calls(a, ext, recursive), Calls(b, ext, recursive));
  }

  /** One more call appends exactly what that call finds, at the end. */
  lemma AccumulatedSnoc(step: (seq<RootCall>, RootCall) -> seq<Info>, history: seq<RootCall>,
                        calls: seq<RootCall>, c: RootCall)
    ensures Accumulated(step, history, calls + [c])
         == Accumulated(step, history, calls) + step(history + calls, c)
  {
    AccumulatedConcat(step, history, calls, [c]);
    assert [c][1..] == [];
  }

  /** The explore call raises exactly when some one of its per-root calls
      found a duplicate. */
  lemma {:induction false} AccumulatedNonEmpty(step: (seq<RootCall>, RootCall) -> seq<Info>,
                                               history: seq<RootCall>, calls: seq<RootCall>)
    ensures Accumulated(step, history, calls) != []
        <==> exists i :: 0 <= i < |calls| && step(history + calls[..i], calls[i]) != []
    decreases |calls|
  {
    if calls != [] {
      var h', rest := history + [calls[0]], calls[1..];
      AccumulatedNonEmpty(step, h', rest);
      assert history + calls[..0] == history;
      forall i | 1 <= i < |calls|
        ensures history + calls[..i] == h' + rest[..i - 1] && calls[i] == rest[i - 1]
      {
        assert calls[..i] == [calls[0]] + rest[..i - 1];
      }
      if Accumulated(step, h', rest) != [] {
        var j :| 0 <= j < |rest| && step(h' + rest[..j], rest[j]) != [];
        assert step(history + calls[..j + 1], calls[j + 1]) != [];
      }
      if exists i :: 0 <= i < |calls| && step(history + calls[..i], calls[i]) != [] {
        var i :| 0 <= i < |calls| && step(history + calls[..i], calls[i]) != [];
        if i > 0 {
          assert step(h' + rest[..i - 1], rest[i - 1]) != [];
        }
      }
    }
  }

  class PluginExplorer {
    /** Every per-root exploration this explorer has carried out, in order. */
    var explored: seq<RootCall>

    /** What one per-root exploration appends to the duplicates list, given
        everything this explorer explored before it. The traversal itself
        is not part of this model; only its effect on the list is. */
    const rootDuplicates: (seq<RootCall>, RootCall) -> seq<Info>

    constructor (rootDuplicates: (seq<RootCall>, RootCall) -> seq<Info>)
      ensures explored == []
      ensures this.rootDuplicates == rootDuplicates
    {
      explored := [];
      this.rootDuplicates := rootDuplicates;
    }

    /** The per-root exploration: its only visible effect is to append what
        it finds to the shared duplicates list. */
    method ExploreRoot(p: string, ext: string, recursive: bool, duplicates: seq<Info>)
      returns (duplicates': seq<Info>)
      modifies this`explored
      ensures explored == old(explored) + [RootCall(p, ext, recursive)]
      ensures duplicates' == duplicates + rootDuplicates(old(explored), RootCall(p, ext, recursive))
    {
      var call := RootCall(p, ext, recursive);
      duplicates' := duplicates + rootDuplicates(explored, call);
      explored := explored + [call];
    }

    /** The multi-path explore: every path once, in order, into one shared
        duplicates list; raises once at the end, and only when that list is
        non-empty, with exactly that list. `thrown` is the raised exception. */
    method Explore(paths: seq<string>, ext: string, recursive: bool)
      returns (thrown: Option<PluginTreeException>)
      modifies this`explored
      ensures explored == old(explored) + Calls(paths, ext, recursive)
      ensures thrown.Some? <==> Accumulated(rootDuplicates, old(explored), Calls(paths, ext, recursive)) != []
      ensures thrown.Some? ==> fresh(thrown.value)
      ensures thrown.Some? ==>
                thrown.value.info == Accumulated(rootDuplicates, old(explored), Calls(paths, ext, recursive))
    {
      ghost var calls := Calls(paths, ext, recursive);
      var duplicates: seq<Info> := [];
      var n := 0;
      while n < |paths|
        invariant 0 <= n <= |paths|
        invariant explored == old(explored) + calls[..n]
        invariant duplicates == Accumulated(rootDuplicates, old(explored), calls[..n])
      {
        AccumulatedSnoc(rootDuplicates, old(explored), calls[..n], calls[n]);
        assert calls[..n + 1] == calls[..n] + [calls[n]];
        duplicates := ExploreRoot(paths[n], ext, recursive, duplicates);
        n := n + 1;
      }
      assert calls[..n] == calls;
      if duplicates != [] {
        var e := new PluginTreeException.FromList(duplicates);
        thrown := Some(e);
      } else {
        thrown := None;
      }
    }

    /** The single-path explore: the multi-path one on the list [path]. */
    method ExploreOne(path: string, ext: string, recursive: bool)
      returns (thrown: Option<PluginTreeException>)
      modifies this`explored
      ensures explored == old(explored) + [RootCall(path, ext, recursive)]
      ensures thrown.Some? <==> rootDuplicates(old(explored), RootCall(path, ext, recursive)) != []
      ensures thrown.Some? ==> fresh(thrown.value)
      ensures thrown.Some? ==> thrown.value.info == rootDuplicates(old(explored), RootCall(path, ext, recursive))
    {
      var paths := [path];
      thrown := Explore(paths, ext, recursive);
      assert Calls(paths, ext, recursive) == [RootCall(path, ext, recursive)];
      assert [RootCall(path, ext, recursive)][1..] == [];
    }
  }
}
