/** The wire format of the chat: one datagram is the text `TYPE|ID|SENDER|CONTENT`.
    The sender joins the four fields with '|' and escapes nothing; the receiver
    splits the text on every '|' and keeps the first four fields, dropping the
    datagram when fewer than four come out. UTF-8 encoding is the identity here. */
module Codec {

  datatype Option<T> = None | Some(value: T)

  /** The field separator of the wire format. */
  const Delim: char := '|'

  /** The packet type of a chat line and of a liveness beacon. */
  const MsgType: string := "MSG"
  const AliveType: string := "ALIVE"

  /** A decoded datagram: its type, message id, sender name and text. */
  datatype Packet = Packet(kind: string, id: string, user: string, text: string)

  /** Number of occurrences of `d` in `s`. */
  function Count(s: string, d: char): nat
  {
    if s == [] then 0 else (if s[0] == d then 1 else 0) + Count(s[1..], d)
  }

  /** The reference inverse of splitting: the fields glued back with `d` between them. */
  function Join(fields: seq<string>, d: char): string
    requires |fields| >= 1
  {
    if |fields| == 1 then fields[0] else fields[0] + [d] + Join(fields[1..], d)
  }

  /** Splitting on every occurrence of `d`, keeping empty fields, as .NET's
      String.Split(char) does: always at least one field, one more than there are
      separators, no field holds a separator, and gluing them back gives `s`. */
  function Split(s: string, d: char): (r: seq<string>)
    ensures |r| == Count(s, d) + 1
    ensures forall i :: 0 <= i < |r| ==> d !in r[i]
    ensures Join(r, d) == s
  {
    if s == [] then [""]
    else
      var rest := Split(s[1..], d);
      if s[0] == d then
        [""] + rest
      else
        var r := [[s[0]] + rest[0]] + rest[1..];
        assert Join(r, d) == [s[0]] + Join(rest, d) by { JoinConsHead(s[0], rest, d); }
        r
  }

  /** Prepending a character to the first field prepends it to the joined text. */
  lemma {:induction false} JoinConsHead(c: char, fields: seq<string>, d: char)
    requires |fields| >= 1
    ensures Join([[c] + fields[0]] + fields[1..], d) == [c] + Join(fields, d)
  {
  }

  /** A text without the separator is a single field. */
  lemma {:induction false} SplitNoDelim(x: string, d: char)
    requires d !in x
    ensures Split(x, d) == [x]
  {
  }

  /** A separator-free prefix followed by the separator is split off as one whole field. */
  lemma {:induction false} SplitField(x: string, d: char, y: string)
    requires d !in x
    ensures Split(x + [d] + y, d) == [x] + Split(y, d)
  {
    if x == [] {
      assert x + [d] + y == [d] + y;
      assert ([d] + y)[1..] == y;
    } else {
      var t := x + [d] + y;
      assert t[0] == x[0];
      assert t[1..] == x[1..] + [d] + y;
      assert d !in x[1..] by {
        forall i | 0 <= i < |x[1..]| ensures x[1..][i] != d { assert x[1..][i] == x[i + 1]; }
      }
      SplitField(x[1..], d, y);
      assert x == [x[0]] + x[1..];
    }
  }

  /** Splitting undoes joining whenever no field contains the separator. */
  lemma {:induction false} SplitJoin(fields: seq<string>, d: char)
    requires |fields| >= 1
    requires forall i :: 0 <= i < |fields| ==> d !in fields[i]
    ensures Split(Join(fields, d), d) == fields
  {
    if |fields| == 1 {
      SplitNoDelim(fields[0], d);
    } else {
      SplitJoin(fields[1..], d);
      SplitField(fields[0], d, Join(fields[1..], d));
      assert fields == [fields[0]] + fields[1..];
    }
  }

  /** `t` is the part of `s` before its first `d`: a prefix of `s` holding no `d`,
      which is either all of `s` or is followed in `s` by `d`. */
  predicate IsPartBeforeFirst(t: string, s: string, d: char)
  {
    t <= s && d !in t && (t == s || (|t| < |s| && s[|t|] == d))
  }

  /** The first field of a split is the part of `s` before its first separator. */
  lemma {:induction false} SplitHead(s: string, d: char)
    ensures IsPartBeforeFirst(Split(s, d)[0], s, d)
  {
  }

  /** The text a sender puts on the wire for one packet: the four fields joined
      by the separator, with nothing escaped (see EncodeIsJoin), so three
      characters longer than its fields. */
  function Encode(kind: string, id: string, user: string, content: string): (r: string)
    ensures |r| == |kind| + |id| + |user| + |content| + 3
  {
    kind + [Delim] + id + [Delim] + user + [Delim] + content
  }

  /** Encoding is joining the four fields with the separator. */
  lemma EncodeIsJoin(kind: string, id: string, user: string, content: string)
    ensures Encode(kind, id, user, content) == Join([kind, id, user, content], Delim)
  {
    var fields := [kind, id, user, content];
    assert fields[1..] == [id, user, content] && fields[1..][1..] == [user, content]
      && fields[1..][1..][1..] == [content];
    assert Join([user, content], Delim) == user + [Delim] + content;
    assert Join([id, user, content], Delim) == id + [Delim] + (user + [Delim] + content);
  }

  /** The receiver's reading of a datagram: no packet when splitting on '|'
      gives fewer than four fields, otherwise the first four fields. */
  function Decode(datagram: string): (r: Option<Packet>)
    ensures r.None? <==> Count(datagram, Delim) < 3
    ensures r.Some? ==> Delim !in r.value.kind && Delim !in r.value.id && Delim !in r.value.user && Delim !in r.value.text
  {
    var p := Split(datagram, Delim);
    if |p| < 4 then None else Some(Packet(p[0], p[1], p[2], p[3]))
  }

  /** The encoded packet splits into the three header fields followed by the split of the content. */
  lemma {:induction false} SplitEncode(kind: string, id: string, user: string, content: string)
    requires Delim !in kind && Delim !in id && Delim !in user
    ensures Split(Encode(kind, id, user, content), Delim) == [kind, id, user] + Split(content, Delim)
  {
    var tail := user + [Delim] + content;
    var mid := id + [Delim] + tail;
    assert Encode(kind, id, user, content) == kind + [Delim] + mid;
    SplitField(user, Delim, content);
    assert Split(tail, Delim) == [user] + Split(content, Delim);
    SplitField(id, Delim, tail);
    assert Split(mid, Delim) == [id, user] + Split(content, Delim);
    SplitField(kind, Delim, mid);
  }

  /** Round trip: a packet whose four fields hold no '|' decodes to exactly those fields. */
  lemma DecodeEncode(kind: string, id: string, user: string, content: string)
    requires Delim !in kind && Delim !in id && Delim !in user && Delim !in content
    ensures Decode(Encode(kind, id, user, content)) == Some(Packet(kind, id, user, content))
  {
    SplitEncode(kind, id, user, content);
    SplitNoDelim(content, Delim);
  }

  /** Truncation: when the content holds '|', the receiver gets the header fields
      intact and, as text, only the part of the content before its first '|';
      everything after it is lost. */
  lemma Truncation(kind: string, id: string, user: string, content: string)
    requires Delim !in kind && Delim !in id && Delim !in user
    ensures var r := Decode(Encode(kind, id, user, content));
      && r.Some?
      && r.value.kind == kind && r.value.id == id && r.value.user == user
      && IsPartBeforeFirst(r.value.text, content, Delim)
  {
    SplitEncode(kind, id, user, content);
    SplitHead(content, Delim);
  }

  /** What the receiver reads from an arbitrary datagram: when it decodes, the
      datagram is the three decoded header fields followed by some rest, and the
      decoded text is the part of that rest before its first '|'; anything after
      the fourth field is ignored. */
  lemma {:induction false} DecodeFields(datagram: string)
    ensures var r := Decode(datagram);
      r.Some? ==>
        var n := |r.value.kind| + |r.value.id| + |r.value.user| + 3;
        && n <= |datagram|
        && datagram == Encode(r.value.kind, r.value.id, r.value.user, datagram[n..])
        && IsPartBeforeFirst(r.value.text, datagram[n..], Delim)
  {
    var p := Split(datagram, Delim);
    if |p| >= 4 {
      var rest := Join(p[3..], Delim);
      JoinFirstThree(p);
      var n := |p[0]| + |p[1]| + |p[2]| + 3;
      assert datagram[n..] == rest;
      SplitJoin(p[3..], Delim);
      SplitHead(rest, Delim);
    }
  }

  /** Joining four or more fields is the packet encoding of the first three and the join of the rest. */
  lemma JoinFirstThree(p: seq<string>)
    requires |p| >= 4
    ensures Join(p, Delim) == Encode(p[0], p[1], p[2], Join(p[3..], Delim))
  {
    var rest := Join(p[3..], Delim);
    JoinUnfold(p[2..]);
    assert p[2..][1..] == p[3..];
    JoinUnfold(p[1..]);
    assert p[1..][1..] == p[2..];
    JoinUnfold(p);
    EncodeNested(p[0], p[1], p[2], rest);
  }

  /** The packet text, with the concatenations grouped from the right. */
  lemma EncodeNested(kind: string, id: string, user: string, content: string)
    ensures Encode(kind, id, user, content) == kind + [Delim] + (id + [Delim] + (user + [Delim] + content))
  {
  }

  /** Joining two or more fields puts the first one, then the separator, then the join of the others. */
  lemma JoinUnfold(p: seq<string>)
    requires |p| >= 2
    ensures Join(p, Delim) == p[0] + [Delim] + Join(p[1..], Delim)
  {
  }
}
