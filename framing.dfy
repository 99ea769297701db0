/**
 * unix.js newline framing. A record is written as its text followed by '\n';
 * each read is split on '\n' and the empty segments are dropped. Every read is
 * split on its own: nothing is carried over from one read to the next.
 */
module Framing {

  const Newline: char := '\n'

  /** A text that can travel as one record: non-empty and without a newline. */
  predicate Line(t: string)
  {
    t != [] && Newline !in t
  }

  /** `data.split('\n')`: the pieces between newlines, always at least one. */
  function Split(s: string): (r: seq<string>)
    ensures |r| >= 1
    ensures forall i :: 0 <= i < |r| ==> Newline !in r[i]
    decreases |s|
  {
    if s == [] then [[]]
    else
      var rest := Split(s[1..]);
      if s[0] == Newline then [[]] + rest
      else [[s[0]] + rest[0]] + rest[1..]
  }

  /** The inverse of Split: the pieces glued back with newlines. */
  function Join(parts: seq<string>): string
    requires |parts| >= 1
    decreases |parts|
  {
    if |parts| == 1 then parts[0] else parts[0] + [Newline] + Join(parts[1..])
  }

  /** Splitting loses nothing: gluing the pieces back gives the read. */
  lemma {:induction false} JoinSplit(s: string)
    ensures Join(Split(s)) == s
    decreases |s|
  {
    if s != [] {
      JoinSplit(s[1..]);
      var rest := Split(s[1..]);
      if s[0] == Newline {
        assert Join([[]] + rest) == [] + [Newline] + Join(rest);
      } else {
        var r := Split(s);
        assert r[0] == [s[0]] + rest[0] && r[1..] == rest[1..];
        if |rest| == 1 {
          assert Join(r) == [s[0]] + rest[0];
        } else {
          assert Join(r) == [s[0]] + rest[0] + [Newline] + Join(rest[1..]);
        }
      }
    }
  }

  /** `if (!s) return;`: the empty pieces are skipped. */
  function DropEmpty(parts: seq<string>): (r: seq<string>)
    ensures |r| <= |parts|
    ensures forall i :: 0 <= i < |r| ==> r[i] != [] && r[i] in parts
    decreases |parts|
  {
    if parts == [] then []
    else (if parts[0] == [] then [] else [parts[0]]) + DropEmpty(parts[1..])
  }

  /**
   * Skipping empty pieces works piece by piece: the survivors of `a + b` are the
   * survivors of `a` followed by those of `b`, so every non-empty piece survives,
   * in its place.
   */
  lemma {:induction false} DropEmptyAppend(a: seq<string>, b: seq<string>)
    ensures DropEmpty(a + b) == DropEmpty(a) + DropEmpty(b)
    decreases |a|
  {
    if a == [] {
      assert a + b == b;
    } else {
      assert (a + b)[0] == a[0] && (a + b)[1..] == a[1..] + b;
      DropEmptyAppend(a[1..], b);
      var head: seq<string> := if a[0] == [] then [] else [a[0]];
      assert DropEmpty(a + b) == head + DropEmpty(a[1..] + b);
      assert DropEmpty(a) == head + DropEmpty(a[1..]);
      assert head + (DropEmpty(a[1..]) + DropEmpty(b)) == (head + DropEmpty(a[1..])) + DropEmpty(b);
    }
  }

  /** Every non-empty piece survives, and only those. */
  lemma {:induction false} DropEmptyKeepsNonEmpty(parts: seq<string>, t: string)
    ensures t in DropEmpty(parts) <==> t in parts && t != []
    decreases |parts|
  {
    if parts != [] {
      DropEmptyKeepsNonEmpty(parts[1..], t);
      assert parts == [parts[0]] + parts[1..];
    }
  }

  /** With no empty piece, nothing is dropped. */
  lemma {:induction false} DropEmptyNoEmpties(parts: seq<string>)
    requires forall i :: 0 <= i < |parts| ==> parts[i] != []
    ensures DropEmpty(parts) == parts
    decreases |parts|
  {
    if parts != [] {
      assert parts[0] != [];
      DropEmptyNoEmpties(parts[1..]);
      assert parts == [parts[0]] + parts[1..];
    }
  }

  /** A read that starts with the delimiter delivers the same records as the read without it. */
  lemma LeadingNewline(data: string)
    ensures Records([Newline] + data) == Records(data)
  {
    var s := [Newline] + data;
    assert s[0] == Newline && s[1..] == data;
    assert Split(s) == [[]] + Split(data);
    DropEmptyAppend([[]], Split(data));
  }

  /**
   * A read holding the newline that ended the previous record, then one more
   * record, delivers just that record.
   */
  lemma LeadingNewlineThenRecord(t: string)
    requires Line(t)
    ensures Records([Newline] + t + [Newline]) == [t]
  {
    assert [Newline] + t + [Newline] == [Newline] + (t + [Newline]);
    LeadingNewline(t + [Newline]);
    OneRecordRead(t);
  }

  /** The records one read delivers, in order. */
  function Records(data: string): (r: seq<string>)
    ensures forall i :: 0 <= i < |r| ==> Line(r[i])
  {
    DropEmpty(Split(data))
  }

  /**
   * What a sequence of `connection.write(text + '\n')` calls puts on the wire:
   * nothing for no writes, otherwise text ending in a newline, with exactly one
   * newline per record when the texts hold none of their own.
   */
  function Frame(texts: seq<string>): (r: string)
    ensures r == [] <==> texts == []
    ensures texts != [] ==> r[|r| - 1] == Newline
    decreases |texts|
  {
    if texts == [] then [] else texts[0] + [Newline] + Frame(texts[1..])
  }

  /** Texts without newlines of their own are framed with exactly one newline each. */
  lemma {:induction false} FrameNewlines(texts: seq<string>)
    requires forall i :: 0 <= i < |texts| ==> Newline !in texts[i]
    ensures multiset(Frame(texts))[Newline] == |texts|
    decreases |texts|
  {
    if texts != [] {
      assert forall i :: 0 <= i < |texts[1..]| ==> texts[1..][i] == texts[i + 1];
      FrameNewlines(texts[1..]);
      assert Newline !in multiset(texts[0]);
    }
  }

  lemma {:induction false} SplitAfterLine(t: string, rest: string)
    requires Newline !in t
    ensures Split(t + [Newline] + rest) == [t] + Split(rest)
    decreases |t|
  {
    var s := t + [Newline] + rest;
    if t == [] {
      assert s[0] == Newline && s[1..] == rest;
    } else {
      assert s[0] == t[0] && s[1..] == t[1..] + [Newline] + rest;
      SplitAfterLine(t[1..], rest);
      assert [t[0]] + t[1..] == t;
    }
  }

  /** Framing round trip: one read of framed records gives back exactly those records. */
  lemma {:induction false} FrameRoundTrip(texts: seq<string>)
    requires forall i :: 0 <= i < |texts| ==> Line(texts[i])
    ensures Records(Frame(texts)) == texts
    decreases |texts|
  {
    if texts != [] {
      FrameRoundTrip(texts[1..]);
      SplitAfterLine(texts[0], Frame(texts[1..]));
      var parts := [texts[0]] + Split(Frame(texts[1..]));
      assert parts[0] == texts[0] && parts[1..] == Split(Frame(texts[1..]));
      assert DropEmpty(parts) == [texts[0]] + DropEmpty(Split(Frame(texts[1..])));
    } else {
      assert Split([]) == [[]];
    }
  }

  /** Writes concatenate: two writes read as one are the framing of both. */
  lemma {:induction false} FrameAppend(a: seq<string>, b: seq<string>)
    ensures Frame(a + b) == Frame(a) + Frame(b)
    decreases |a|
  {
    if a != [] {
      FrameAppend(a[1..], b);
      assert (a + b)[0] == a[0] && (a + b)[1..] == a[1..] + b;
      var head := a[0] + [Newline];
      assert Frame(a + b) == head + Frame(a[1..] + b);
      assert Frame(a) == head + Frame(a[1..]);
      assert head + (Frame(a[1..]) + Frame(b)) == (head + Frame(a[1..])) + Frame(b);
    } else {
      assert a + b == b;
    }
  }

  /** Two complete records that arrive in one read are delivered as two records. */
  lemma TwoRecordsInOneRead(t1: string, t2: string)
    requires Line(t1) && Line(t2)
    ensures Records(t1 + [Newline] + t2 + [Newline]) == [t1, t2]
  {
    FrameRoundTrip([t1, t2]);
    assert Frame([t2]) == t2 + [Newline] + [];
    assert Frame([t1, t2]) == t1 + [Newline] + Frame([t2]);
    assert t1 + [Newline] + (t2 + [Newline] + []) == t1 + [Newline] + t2 + [Newline];
  }

  lemma {:induction false} SplitNoNewline(t: string)
    requires Newline !in t
    ensures Split(t) == [t]
    decreases |t|
  {
    if t != [] {
      SplitNoNewline(t[1..]);
      assert [t[0]] + t[1..] == t;
    }
  }

  /** One framed record read alone. */
  lemma OneRecordRead(t: string)
    requires Line(t)
    ensures Records(t + [Newline]) == [t]
  {
    FrameRoundTrip([t]);
    assert [t][1..] == [];
    assert Frame([t]) == t + [Newline] + [];
    assert t + [Newline] + [] == t + [Newline];
  }

  /**
   * No reassembly: a record whose text is cut between two reads is delivered as
   * two separate pieces, where one read of the same bytes delivers one record.
   */
  lemma RecordCutAcrossReadsIsNotReassembled(t: string, k: nat)
    requires Line(t) && 0 < k < |t|
    ensures Records(t[..k]) + Records(t[k..] + [Newline]) == [t[..k], t[k..]]
    ensures Records(t + [Newline]) == [t]
  {
    var head, tail := t[..k], t[k..];
    assert Newline !in head && Newline !in tail;
    SplitNoNewline(head);
    assert [head][1..] == [];
    assert DropEmpty([head]) == [head];
    assert Records(head) == [head];
    OneRecordRead(tail);
    OneRecordRead(t);
  }
}
