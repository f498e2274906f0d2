/** `read_params` (server.py:88-92): the query string of a request path,
    cut with Python's `str.split` on `?`, then `&`, then `=`, and fed to
    `dict`. */
module Params {
  import opened Wrappers

  type Query = map<string, string>

  /** `dict(...)` raises ValueError on the first item that does not split
      into exactly two parts on `=`. */
  datatype ParamError = BadItem(item: string)

  /** Python's `sep.join(parts)`. */
  function Join(parts: seq<string>, sep: char): string
    requires |parts| >= 1
  {
    if |parts| == 1 then parts[0] else parts[0] + [sep] + Join(parts[1..], sep)
  }

  /** Python's `s.split(sep)` for a one-character separator: at least one
      part, none containing `sep`, joined back they give `s`; there is more
      than one part exactly when `s` contains `sep`. */
  function Split(s: string, sep: char): (parts: seq<string>)
    ensures |parts| >= 1
    ensures forall i :: 0 <= i < |parts| ==> sep !in parts[i]
    ensures Join(parts, sep) == s
    ensures |parts| > 1 <==> sep in s
    decreases |s|
  {
    if s == [] then [""]
    else
      var rest := Split(s[1..], sep);
      if s[0] == sep then
        assert ([""] + rest)[1..] == rest;
        [""] + rest
      else
        assert s == [s[0]] + s[1..];
        var parts := [[s[0]] + rest[0]] + rest[1..];
        assert |rest| > 1 ==> parts[1..] == rest[1..] && Join(rest, sep) == rest[0] + [sep] + Join(rest[1..], sep);
        parts
  }

  /** Splitting a string that has no separator gives it back whole. */
  lemma {:induction false} SplitNoSeparator(s: string, sep: char)
    requires sep !in s
    ensures Split(s, sep) == [s]
  {
  }

  /** Splitting at the first separator peels off the text before it. */
  lemma {:induction false} SplitFirst(a: string, b: string, sep: char)
    requires sep !in a
    ensures Split(a + [sep] + b, sep) == [a] + Split(b, sep)
    decreases |a|
  {
    var s := a + [sep] + b;
    if a == [] {
      assert s[0] == sep && s[1..] == b;
    } else {
      assert s[0] == a[0] && s[1..] == a[1..] + [sep] + b;
      SplitFirst(a[1..], b, sep);
      assert [a[0]] + a[1..] == a;
    }
  }

  /** Split undoes Join when no part contains the separator. */
  lemma {:induction false} SplitJoin(parts: seq<string>, sep: char)
    requires |parts| >= 1
    requires forall i :: 0 <= i < |parts| ==> sep !in parts[i]
    ensures Split(Join(parts, sep), sep) == parts
  {
    if |parts| == 1 {
      SplitNoSeparator(parts[0], sep);
    } else {
      SplitJoin(parts[1..], sep);
      SplitFirst(parts[0], Join(parts[1..], sep), sep);
      assert [parts[0]] + parts[1..] == parts;
    }
  }

  /** `dict(map(lambda x: x.split('='), items))`, inserting into `acc` from
      left to right. */
  function ToDict(items: seq<string>, acc: Query): Result<Query, ParamError>
    decreases |items|
  {
    if items == [] then Success(acc)
    else
      var kv := Split(items[0], '=');
      if |kv| != 2 then Failure(BadItem(items[0]))
      else ToDict(items[1..], acc[kv[0] := kv[1]])
  }

  /** An item `dict` accepts: exactly one `=`. */
  predicate IsPair(item: string)
  {
    |Split(item, '=')| == 2
  }

  function KeyOf(item: string): string
    requires IsPair(item)
  {
    Split(item, '=')[0]
  }

  function ValueOf(item: string): string
    requires IsPair(item)
  {
    Split(item, '=')[1]
  }

  /** `read_params(path)`: `None` without a `?`; otherwise the dictionary
      built from the text between the first and the second `?`. */
  function ReadParams(path: string): Result<Option<Query>, ParamError>
  {
    var query := Split(path, '?');
    if |query| > 1 then
      match ToDict(Split(query[1], '&'), map[])
      case Success(m) => Success(Some(m))
      case Failure(e) => Failure(e)
    else Success(None)
  }

  /** `dict` fails exactly when some item is not a pair, and it reports the
      first such item. */
  lemma {:induction false} ToDictFails(items: seq<string>, acc: Query)
    ensures ToDict(items, acc).Failure? <==> exists i :: 0 <= i < |items| && !IsPair(items[i])
    ensures ToDict(items, acc).Failure? ==>
      exists i :: 0 <= i < |items| && !IsPair(items[i])
        && ToDict(items, acc).error == BadItem(items[i])
        && forall j :: 0 <= j < i ==> IsPair(items[j])
  {
    if items != [] {
      ToDictFails(items[1..], acc);
      if IsPair(items[0]) {
        var kv := Split(items[0], '=');
        ToDictFails(items[1..], acc[kv[0] := kv[1]]);
        if ToDict(items, acc).Failure? {
          var i :| 0 <= i < |items[1..]| && !IsPair(items[1..][i])
                   && ToDict(items[1..], acc[kv[0] := kv[1]]).error == BadItem(items[1..][i])
                   && forall j :: 0 <= j < i ==> IsPair(items[1..][j]);
          assert !IsPair(items[i + 1]);
          assert forall j :: 0 <= j < i + 1 ==> IsPair(items[j]) by {
            forall j | 0 <= j < i + 1 ensures IsPair(items[j]) {
              if j > 0 { assert items[j] == items[1..][j - 1]; }
            }
          }
        } else {
          forall i | 0 <= i < |items| ensures IsPair(items[i]) {
            if i > 0 { assert items[i] == items[1..][i - 1]; }
          }
        }
      }
    }
  }

  /** The value the last well-formed item with key `k` gives it, if any. */
  function LastValue(items: seq<string>, k: string): Option<string>
  {
    if items == [] then None
    else match LastValue(items[1..], k)
      case Some(v) => Some(v)
      case None => if IsPair(items[0]) && KeyOf(items[0]) == k then Some(ValueOf(items[0])) else None
  }

  /** A successful `dict` gives each key the value of its LAST item (a later
      duplicate overwrites an earlier one); keys no item names keep their
      value from `acc`, and there are no other keys. */
  lemma {:induction false} ToDictLaterWins(items: seq<string>, acc: Query, k: string)
    requires ToDict(items, acc).Success?
    ensures k in ToDict(items, acc).value <==> k in acc || LastValue(items, k).Some?
    ensures LastValue(items, k).Some? ==> ToDict(items, acc).value[k] == LastValue(items, k).value
    ensures LastValue(items, k).None? && k in acc ==> ToDict(items, acc).value[k] == acc[k]
  {
    if items != [] {
      ToDictLaterWins(items[1..], acc[KeyOf(items[0]) := ValueOf(items[0])], k);
    }
  }

  /** Without a `?` the result is `None`; with one, it is a dictionary or
      an error. */
  lemma ReadParamsNone(path: string)
    ensures ReadParams(path) == Success(None) <==> '?' !in path
  {
    var query := Split(path, '?');
    if |query| > 1 {
      var r := ToDict(Split(query[1], '&'), map[]);
      assert r.Success? ==> ReadParams(path) == Success(Some(r.value));
    }
  }

  lemma ReadParamsUnfold(path: string)
    requires '?' in path
    ensures ReadParams(path).Failure? <==> ToDict(Split(Split(path, '?')[1], '&'), map[]).Failure?
    ensures ReadParams(path).Success? ==>
      ReadParams(path).value == Some(ToDict(Split(Split(path, '?')[1], '&'), map[]).value)
  {
  }

  /** With a `?`, `read_params` fails exactly when some item of the query
      segment is not a pair. */
  lemma ReadParamsFails(path: string)
    requires '?' in path
    ensures var items := Split(Split(path, '?')[1], '&');
      ReadParams(path).Failure? <==> exists i :: 0 <= i < |items| && !IsPair(items[i])
  {
    ReadParamsUnfold(path);
    ToDictFails(Split(Split(path, '?')[1], '&'), map[]);
  }

  /** A dictionary `read_params` returns is never empty, because splitting
      on `&` always leaves at least one item. */
  lemma ReadParamsNonEmpty(path: string)
    requires ReadParams(path).Success? && ReadParams(path).value.Some?
    ensures ReadParams(path).value.value != map[]
  {
    ReadParamsNone(path);
    ReadParamsUnfold(path);
    var items := Split(Split(path, '?')[1], '&');
    var r := ToDict(items, map[]);
    ToDictFails(items, map[]);
    assert IsPair(items[0]);
    var k := KeyOf(items[0]);
    assert LastValue(items, k).Some?;
    ToDictLaterWins(items, map[], k);
    assert k in r.value;
  }

  /** The query segment is the text between the first and the second `?`:
      whatever follows a second `?` is ignored. */
  lemma QuerySegment(before: string, segment: string, rest: string)
    requires '?' !in before && '?' !in segment
    ensures ReadParams(before + ['?'] + segment + ['?'] + rest) == ReadParams(before + ['?'] + segment)
  {
    var long := before + ['?'] + segment + ['?'] + rest;
    assert long == before + ['?'] + (segment + ['?'] + rest);
    SplitFirst(before, segment + ['?'] + rest, '?');
    SplitFirst(segment, rest, '?');
    SplitFirst(before, segment, '?');
    SplitNoSeparator(segment, '?');
    assert Split(long, '?')[1] == segment == Split(before + ['?'] + segment, '?')[1];
  }

}
