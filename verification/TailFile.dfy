/** The polling line tailer (src/palantir/tail.rs). What a poll sees of the file system is a parameter: the
    length reported by metadata, and the bytes read if opening, seeking and reading succeed. */
module TailFile {
  import opened Options
  import opened Tokens

  // ---------- lines ----------

  /** Position of the first newline, or the length. */
  function FirstNewline(b: Bytes): (k: nat)
    ensures k <= |b| && (k < |b| ==> b[k] == NEWLINE)
    ensures forall i :: 0 <= i < k ==> b[i] != NEWLINE
  {
    if b == [] then 0 else if b[0] == NEWLINE then 0 else 1 + FirstNewline(b[1..])
  }

  /** The complete lines of b, without their newlines. */
  function Lines(b: Bytes): seq<Bytes>
    decreases |b|
  {
    var k := FirstNewline(b);
    if k == |b| then [] else [b[..k]] + Lines(b[k + 1..])
  }

  /** What follows the last newline. */
  function Rest(b: Bytes): Bytes
    decreases |b|
  {
    var k := FirstNewline(b);
    if k == |b| then b else Rest(b[k + 1..])
  }

  /** Lines written out again, each with its newline. */
  function Unlines(ls: seq<Bytes>): Bytes {
    if ls == [] then [] else ls[0] + [NEWLINE] + Unlines(ls[1..])
  }

  predicate NoNewline(b: Bytes) {
    NEWLINE !in b
  }

  ghost predicate AllLines(ls: seq<Bytes>) {
    forall i :: 0 <= i < |ls| ==> NoNewline(ls[i])
  }

  lemma UnlinesCons(line: Bytes, ls: seq<Bytes>)
    ensures Unlines([line] + ls) == line + [NEWLINE] + Unlines(ls)
    ensures NoNewline(line) && AllLines(ls) ==> AllLines([line] + ls)
  {
    assert ([line] + ls)[1..] == ls;
  }

  lemma FirstLine(b: Bytes) returns (line: Bytes, tail: Bytes)
    requires FirstNewline(b) < |b|
    ensures b == line + [NEWLINE] + tail && NoNewline(line)
    ensures Lines(b) == [line] + Lines(tail) && Rest(b) == Rest(tail)
  {
    var k := FirstNewline(b);
    line, tail := b[..k], b[k + 1..];
  }

  /** Splitting loses nothing and leaves no newline. */
  lemma {:induction false} SplitJoin(b: Bytes)
    ensures Unlines(Lines(b)) + Rest(b) == b && AllLines(Lines(b)) && NoNewline(Rest(b))
    decreases |b|
  {
    if FirstNewline(b) == |b| {
      assert Unlines([]) + b == b;
    } else {
      var line, tail := FirstLine(b);
      SplitJoin(tail);
      UnlinesCons(line, Lines(tail));
      Glue(line, Unlines(Lines(tail)), Rest(tail), tail);
      hide *;
    }
  }

  lemma Glue(line: Bytes, x: Bytes, y: Bytes, tail: Bytes)
    requires x + y == tail
    ensures (line + [NEWLINE] + x) + y == line + [NEWLINE] + tail
  {
  }

  /** The first newline of a line, a newline, and anything. */
  lemma FirstNewlineOf(line: Bytes, tail: Bytes)
    requires NoNewline(line)
    ensures FirstNewline(line + [NEWLINE] + tail) == |line|
  {
    var b := line + [NEWLINE] + tail;
    assert b[|line|] == NEWLINE;
    assert forall i :: 0 <= i < |line| ==> b[i] == line[i] && line[i] in line;
  }

  /** Any way of writing b as complete lines and a rest is the way it is split. */
  lemma {:induction false} SplitUnique(ls: seq<Bytes>, rest: Bytes)
    requires AllLines(ls) && NoNewline(rest)
    ensures Lines(Unlines(ls) + rest) == ls && Rest(Unlines(ls) + rest) == rest
  {
    if ls == [] {
      assert Unlines(ls) + rest == rest;
      NoneIn(rest);
      assert Lines(rest) == [] && Rest(rest) == rest;
    } else {
      var tail := Unlines(ls[1..]) + rest;
      SplitUnique(ls[1..], rest);
      assert NoNewline(ls[0]) && ls == [ls[0]] + ls[1..];
      hide Unlines, NoNewline, AllLines;
      Glue(ls[0], Unlines(ls[1..]), rest, tail);
      UnlinesCons(ls[0], ls[1..]);
      FirstOf(ls[0], tail);
    }
    hide Lines, Rest;
  }

  lemma FirstOf(line: Bytes, tail: Bytes)
    requires NoNewline(line)
    ensures Lines(line + [NEWLINE] + tail) == [line] + Lines(tail) && Rest(line + [NEWLINE] + tail) == Rest(tail)
  {
    var b := line + [NEWLINE] + tail;
    FirstNewlineOf(line, tail);
    assert b[..|line|] == line && b[|line| + 1..] == tail;
    hide FirstNewline, NoNewline;
  }

  lemma NoneIn(rest: Bytes)
    requires NoNewline(rest)
    ensures FirstNewline(rest) == |rest|
  {
    assert forall i :: 0 <= i < |rest| ==> rest[i] in rest;
  }

  lemma {:induction false} UnlinesAppend(a: seq<Bytes>, b: seq<Bytes>)
    ensures Unlines(a + b) == Unlines(a) + Unlines(b)
  {
    if a == [] {
      assert a + b == b;
    } else {
      assert (a + b)[1..] == a[1..] + b && (a + b)[0] == a[0];
      UnlinesAppend(a[1..], b);
      Glue(a[0], Unlines(a[1..]), Unlines(b), Unlines(a[1..] + b));
    }
  }

  /** Splitting in two steps, carrying the rest over, is splitting at once. */
  lemma SplitAppend(a: Bytes, b: Bytes)
    ensures Lines(a + b) == Lines(a) + Lines(Rest(a) + b) && Rest(a + b) == Rest(Rest(a) + b)
  {
    hide Lines, Rest, Unlines, NoNewline;
    SplitJoin(a);
    SplitJoin(Rest(a) + b);
    var x, y := Lines(a), Lines(Rest(a) + b);
    UnlinesAppend(x, y);
    Regroup(Unlines(x), Unlines(y), Rest(Rest(a) + b), Rest(a), b, a);
    SplitUnique(x + y, Rest(Rest(a) + b));
  }

  lemma Regroup(x: Bytes, y: Bytes, z: Bytes, r: Bytes, b: Bytes, a: Bytes)
    requires y + z == r + b && x + r == a
    ensures (x + y) + z == a + b
  {
    assert (x + y) + z == x + (y + z);
    assert x + (r + b) == (x + r) + b;
  }

  // ---------- one poll ----------

  datatype State = State(offset: nat, partial: Bytes)

  /** What one poll finds: the metadata length, and the whole file if it could be read. */
  datatype Look = Look(len: Option<nat>, content: Option<Bytes>)

  /** The bytes read from an offset to the end. */
  function Tail(content: Bytes, offset: nat): Bytes {
    if offset <= |content| then content[offset..] else []
  }

  /** The state after truncation was noticed, if it was. */
  function Noticed(s: State, len: nat): State {
    if len < s.offset then State(0, []) else s
  }

  function Polled(s: State, look: Look): State {
    if look.len.None? then s
    else
      var t := Noticed(s, look.len.value);
      if look.len.value == t.offset || look.content.None? then t
      else
        var new_ := Tail(look.content.value, t.offset);
        State(t.offset + |new_|, Rest(t.partial + new_))
  }

  /** The raw lines a poll reports. */
  function Reported(s: State, look: Look): seq<Bytes> {
    if look.len.None? then []
    else
      var t := Noticed(s, look.len.value);
      if look.len.value == t.offset || look.content.None? then []
      else Lines(t.partial + Tail(look.content.value, t.offset))
  }

  /** One poll, case by case: the new state and the lines reported. */
  lemma PollCases(s: State, len: nat, c: Bytes, any: Option<Bytes>)
    ensures Polled(s, Look(None, any)) == s && Reported(s, Look(None, any)) == []
    ensures var t := if len < s.offset then State(0, []) else s;
            && Polled(s, Look(Some(len), None)) == t && Reported(s, Look(Some(len), None)) == []
            && var look, more := Look(Some(len), Some(c)), if t.offset <= |c| then c[t.offset..] else [];
               if len == t.offset then Polled(s, look) == t && Reported(s, look) == []
               else
                 && Polled(s, look) == State(t.offset + |more|, Rest(t.partial + more))
                 && Reported(s, look) == Lines(t.partial + more)
  {
  }

  // ---------- text ----------

  /** trim_end_matches('\\r'): all trailing carriage returns go. */
  function TrimEnd(t: string): (r: string)
    ensures r <= t && (r != [] ==> r[|r| - 1] != '\r')
    ensures forall i :: |r| <= i < |t| ==> t[i] == '\r'
  {
    if t != [] && t[|t| - 1] == '\r' then TrimEnd(t[..|t| - 1]) else t
  }

  /** A line as returned; `lossy` is String::from_utf8_lossy. */
  function Shown(lossy: Bytes -> string, raw: Bytes): string {
    TrimEnd(lossy(raw))
  }

  /** The text without the carriage returns at its end, and with all others. */
  lemma ShownIs(lossy: Bytes -> string, raw: Bytes, body: string, tail: string)
    requires lossy(raw) == body + tail && (forall i :: 0 <= i < |tail| ==> tail[i] == '\r')
    requires body == [] || body[|body| - 1] != '\r'
    ensures Shown(lossy, raw) == body
  {
    var t, r := lossy(raw), TrimEnd(lossy(raw));
    assert forall i :: |body| <= i < |t| ==> t[i] == tail[i - |body|];
    assert body != [] ==> t[|body| - 1] == body[|body| - 1];
    assert r != [] ==> r[|r| - 1] == t[|r| - 1];
    hide TrimEnd;
  }

  function ShownAll(lossy: Bytes -> string, raws: seq<Bytes>): (r: seq<string>)
    ensures |r| == |raws| && forall i :: 0 <= i < |raws| ==> r[i] == Shown(lossy, raws[i])
  {
    seq(|raws|, i requires 0 <= i < |raws| => Shown(lossy, raws[i]))
  }

  // ---------- the program ----------

  class Tailer {
    var offset: nat
    var partial: Bytes

    /** at_end: start at the length metadata reports, or 0. */
    constructor AtEnd(len: Option<nat>)
      ensures offset == (if len.Some? then len.value else 0) && partial == []
    {
      offset := if len.Some? then len.value else 0;
      partial := [];
    }

    ghost function View(): State
      reads this
    {
      State(offset, partial)
    }

    method Poll(look: Look, lossy: Bytes -> string) returns (lines: seq<string>)
      modifies this
      ensures View() == Polled(old(View()), look)
      ensures lines == ShownAll(lossy, Reported(old(View()), look))
    {
      if look.len.None? {
        return [];
      }
      if look.len.value < offset {
        offset := 0;
        partial := [];
      }
      if look.len.value == offset {
        return [];
      }
      if look.content.None? {
        return [];
      }
      var buf := Tail(look.content.value, offset);
      offset := offset + |buf|;
      partial := partial + buf;
      lines := DrainCompleteLines(lossy);
    }

    method DrainCompleteLines(lossy: Bytes -> string) returns (lines: seq<string>)
      modifies this`partial
      ensures partial == Rest(old(partial))
      ensures lines == ShownAll(lossy, Lines(old(partial)))
    {
      hide *;
      lines := [];
      ghost var raws: seq<Bytes> := [];
      var start := 0;
      DrainStart(partial);
      ShownNone(lossy);
      for i := 0 to |partial|
        invariant partial == old(partial) && start <= i && NoNewline(partial[start..i])
        invariant lines == ShownAll(lossy, raws)
        invariant raws + Lines(partial[start..]) == Lines(partial) && Rest(partial[start..]) == Rest(partial)
      {
        SliceNext(partial, start, i);
        if partial[i] == NEWLINE {
          var raw := partial[start..i];
          LineFound(partial, start, i, raws);
          ShownOne(lossy, raws, raw);
          lines := lines + [Shown(lossy, raw)];
          raws := raws + [raw];
          start := i + 1;
        }
      }
      NoLineLeft(partial, start, raws);
      if start > 0 {
        partial := partial[start..];
      } else {
        assert partial[0..] == partial;
      }
    }
  }

  lemma DrainStart(b: Bytes)
    ensures NoNewline(b[0..0]) && [] + Lines(b[0..]) == Lines(b) && Rest(b[0..]) == Rest(b)
  {
    assert b[0..] == b;
  }

  lemma ShownNone(lossy: Bytes -> string)
    ensures ShownAll(lossy, []) == []
  {
  }

  lemma ShownOne(lossy: Bytes -> string, raws: seq<Bytes>, raw: Bytes)
    ensures ShownAll(lossy, raws + [raw]) == ShownAll(lossy, raws) + [Shown(lossy, raw)]
  {
    hide Shown;
  }

  lemma SliceNext(b: Bytes, start: nat, i: nat)
    requires start <= i < |b| && NoNewline(b[start..i])
    ensures b[i] != NEWLINE ==> NoNewline(b[start..i + 1])
    ensures NoNewline(b[i + 1..i + 1])
  {
    assert b[start..i + 1] == b[start..i] + [b[i]];
  }

  lemma LineFound(b: Bytes, start: nat, i: nat, raws: seq<Bytes>)
    requires start <= i < |b| && NoNewline(b[start..i]) && b[i] == NEWLINE
    ensures raws + Lines(b[start..]) == (raws + [b[start..i]]) + Lines(b[i + 1..])
    ensures Rest(b[start..]) == Rest(b[i + 1..])
  {
    var s := b[start..];
    assert s == b[start..i] + [NEWLINE] + b[i + 1..];
    FirstNewlineOf(b[start..i], b[i + 1..]);
    assert s[..i - start] == b[start..i] && s[i - start + 1..] == b[i + 1..];
    assert raws + ([b[start..i]] + Lines(b[i + 1..])) == (raws + [b[start..i]]) + Lines(b[i + 1..]);
  }

  lemma NoLineLeft(b: Bytes, start: nat, raws: seq<Bytes>)
    requires start <= |b| && NoNewline(b[start..|b|])
    ensures Lines(b[start..]) == [] && Rest(b[start..]) == b[start..] && raws + Lines(b[start..]) == raws
  {
    assert b[start..|b|] == b[start..];
    NoneIn(b[start..]);
  }

  // ---------- over a polling schedule ----------

  /** State and reported lines after a list of polls. */
  function PolledAll(s: State, looks: seq<Look>): State {
    if looks == [] then s else Polled(PolledAll(s, looks[..|looks| - 1]), looks[|looks| - 1])
  }

  function ReportedAll(s: State, looks: seq<Look>): seq<Bytes> {
    if looks == [] then []
    else ReportedAll(s, looks[..|looks| - 1]) + Reported(PolledAll(s, looks[..|looks| - 1]), looks[|looks| - 1])
  }

  /** What a look can find of a file that only grows: some length and some later prefix, none shorter than
      what was there before. */
  predicate LookOk(look: Look, file: Bytes, seen: nat) {
    && (look.len.Some? ==> seen <= look.len.value)
    && (look.content.Some? ==> look.content.value <= file
                               && if look.len.Some? then look.len.value <= |look.content.value| else seen <= |look.content.value|)
  }

  /** How much of the file a look has shown to exist. */
  function SeenBy(look: Look, seen: nat): nat {
    var a := if look.len.Some? && look.len.value > seen then look.len.value else seen;
    if look.content.Some? && |look.content.value| > a then |look.content.value| else a
  }

  function SeenAll(looks: seq<Look>, seen: nat): nat {
    if looks == [] then seen else SeenBy(looks[|looks| - 1], SeenAll(looks[..|looks| - 1], seen))
  }

  /** The looks of a polling schedule on a file that only grows and ends up as `file`. */
  predicate Growing(looks: seq<Look>, file: Bytes, seen: nat) {
    looks != [] ==>
      && Growing(looks[..|looks| - 1], file, seen)
      && LookOk(looks[|looks| - 1], file, SeenAll(looks[..|looks| - 1], seen))
  }

  /** A poll at each of these lengths. */
  function Looks(file: Bytes, lens: seq<nat>): (r: seq<Look>)
    requires forall i :: 0 <= i < |lens| ==> lens[i] <= |file|
    ensures |r| == |lens| && forall i :: 0 <= i < |lens| ==> r[i] == Look(Some(lens[i]), Some(file[..lens[i]]))
  {
    seq(|lens|, i requires 0 <= i < |lens| => Look(Some(lens[i]), Some(file[..lens[i]])))
  }

  /** Polling a growing file at any lengths is such a schedule, and reads up to the last of them. */
  lemma {:induction false} PollsAreGrowing(file: Bytes, start: nat, lens: seq<nat>)
    requires start <= |file| && forall i :: 0 <= i < |lens| ==> start <= lens[i] <= |file|
    requires forall i, j :: 0 <= i < j < |lens| ==> lens[i] <= lens[j]
    ensures var looks, last := Looks(file, lens), if lens == [] then start else lens[|lens| - 1];
            && Growing(looks, file, start) && SeenAll(looks, start) == last
            && PolledAll(State(start, []), looks).offset == last
  {
    hide Lines, Rest;
    if lens != [] {
      var n := |lens| - 1;
      PollsAreGrowing(file, start, lens[..n]);
      assert Looks(file, lens)[..n] == Looks(file, lens[..n]);
    }
  }

  /** Reported lines and the pending part are the split of file[start..offset]. */
  ghost predicate InStep(file: Bytes, start: nat, s: State, raws: seq<Bytes>) {
    && start <= s.offset <= |file|
    && raws == Lines(file[start..s.offset]) && s.partial == Rest(file[start..s.offset])
  }

  lemma PollInStep(file: Bytes, start: nat, s: State, raws: seq<Bytes>, look: Look, seen: nat)
    requires InStep(file, start, s, raws) && LookOk(look, file, seen) && s.offset <= seen
    ensures InStep(file, start, Polled(s, look), raws + Reported(s, look)) && Polled(s, look).offset <= SeenBy(look, seen)
  {
    hide Lines, Rest;
    if look.len.None? || look.len.value == s.offset || look.content.None? {
      assert raws + [] == raws;
    } else {
      var c := look.content.value;
      var a, b := file[start..s.offset], c[s.offset..];
      assert file[..|c|] == c;
      assert a + b == file[start..|c|];
      SplitAppend(a, b);
    }
  }

  /** On every schedule over a growing file, the lines reported are exactly the complete lines of the bytes
      from the start up to the offset, and the buffer is the rest of them: they do not depend on when the
      polls happened. */
  lemma {:induction false} ScheduleIndependent(file: Bytes, start: nat, looks: seq<Look>)
    requires start <= |file| && Growing(looks, file, start)
    ensures InStep(file, start, PolledAll(State(start, []), looks), ReportedAll(State(start, []), looks))
    ensures PolledAll(State(start, []), looks).offset <= SeenAll(looks, start)
  {
    if looks == [] {
      assert file[start..start] == [];
    } else {
      var before := looks[..|looks| - 1];
      ScheduleIndependent(file, start, before);
      PollInStep(file, start, PolledAll(State(start, []), before), ReportedAll(State(start, []), before),
                 looks[|looks| - 1], SeenAll(before, start));
    }
    hide InStep, Polled, Reported, LookOk, SeenBy;
  }

  /** Conservation: the reported lines with their newlines, then the buffer, are those bytes. */
  lemma NothingLost(file: Bytes, start: nat, looks: seq<Look>)
    requires start <= |file| && Growing(looks, file, start)
    ensures var s := PolledAll(State(start, []), looks);
            && start <= s.offset <= |file|
            && Unlines(ReportedAll(State(start, []), looks)) + s.partial == file[start..s.offset]
            && NoNewline(s.partial)
  {
    ScheduleIndependent(file, start, looks);
    SplitJoin(file[start..PolledAll(State(start, []), looks).offset]);
    hide Lines, Rest, Unlines, NoNewline, PolledAll, ReportedAll, Growing;
  }

  /** Two schedules that read equally far have reported the same lines. */
  lemma SchedulesAgree(file: Bytes, start: nat, a: seq<Look>, b: seq<Look>)
    requires start <= |file| && Growing(a, file, start) && Growing(b, file, start)
    requires PolledAll(State(start, []), a).offset == PolledAll(State(start, []), b).offset
    ensures ReportedAll(State(start, []), a) == ReportedAll(State(start, []), b)
    ensures PolledAll(State(start, []), a) == PolledAll(State(start, []), b)
  {
    ScheduleIndependent(file, start, a);
    ScheduleIndependent(file, start, b);
    hide Lines, Rest, PolledAll, ReportedAll, Growing;
  }

  /** A file found shorter than the offset is read again from the top, as by a tailer that starts there. */
  lemma TruncationRestarts(s: State, look: Look)
    requires look.len.Some? && look.len.value < s.offset
    ensures Polled(s, look) == Polled(State(0, []), look) && Reported(s, look) == Reported(State(0, []), look)
  {
  }
}
