/**
 * The two pieces of text the client reads out of control-connection replies:
 * the data port of a `227` answer to PASV (preparePasvConnection) and the
 * quoted directory of a `257` answer to PWD (GetWorkingDirectory).
 */
module ReplyText {
  import opened FtpsErrors
  import opened GoText

  /**
   * The port a PASV reply announces.  The text between the first '(' and the
   * last ')' is split at every ','; fields 4 and 5 are the high and the low
   * byte of the port.  No delimiter: Pasv.  A ')' before the '(': the slice
   * panics.  Fewer than five or six fields: the index panics, the second one
   * only after field 4 has been read.  The port is computed in Go's int, so it
   * wraps around and is never checked against the range of a TCP port.
   */
  function PasvPort(msg: string): (r: Result<int>)
    ensures r.Err? ==> r.error in {Pasv, Panic(SliceOutOfRange), Panic(IndexOutOfRange), NumSyntax, NumRange}
    ensures r.Ok? ==> -Two63 <= r.value < Two63
  {
    var start := IndexOf(msg, '(');
    var end := LastIndexOf(msg, ')');
    if start == -1 || end == -1 then Err(Pasv)
    else if start + 1 > end then Err(Panic(SliceOutOfRange))
    else PortOfFields(Split(msg[start + 1..end], ','))
  }

  /** Fields 4 and 5 of the split tuple as the high and the low byte of the port. */
  function PortOfFields(fields: seq<string>): (r: Result<int>)
    ensures r.Err? ==> r.error in {Panic(IndexOutOfRange), NumSyntax, NumRange}
    ensures r.Ok? ==> -Two63 <= r.value < Two63
    ensures r.Ok? ==> |fields| >= 6 && Atoi(fields[4]).Ok? && Atoi(fields[5]).Ok?
  {
    if |fields| <= 4 then Err(Panic(IndexOutOfRange))
    else
      match Atoi(fields[4])
      case Err(e) => Err(e)
      case Ok(high) =>
        if |fields| <= 5 then Err(Panic(IndexOutOfRange))
        else
          match Atoi(fields[5])
          case Err(e) => Err(e)
          case Ok(low) => Ok(ToInt64(ToInt64(high * 256) + low))
  }

  /** The reply is rejected with Pasv exactly when it lacks a '(' or a ')'. */
  lemma PasvPortMissingDelimiter(msg: string)
    ensures PasvPort(msg) == Err(Pasv) <==> '(' !in msg || ')' !in msg
  {
  }

  /** The parenthesised tuple is what gets split, whatever surrounds it. */
  lemma PasvPortEnclosed(pre: string, inner: string, post: string)
    requires '(' !in pre && ')' !in post
    ensures PasvPort(pre + "(" + inner + ")" + post) == PortOfFields(Split(inner, ','))
  {
    var m := pre + "(" + inner + ")" + post;
    assert m == pre + ['('] + inner + [')'] + post;
    Enclosed(pre, '(', inner, ')', post);
    var start := IndexOf(m, '(');
    var end := LastIndexOf(m, ')');
    assert start == |pre| && end == |pre| + 1 + |inner|;
    assert m[start + 1..end] == inner;
  }

  /** Two decimal bytes in fields 4 and 5 give the port high * 256 + low, whatever the fields before them. */
  lemma PortOfDecimalFields(hosts: seq<string>, p1: nat, p2: nat)
    requires |hosts| == 4 && p1 < 256 && p2 < 256
    ensures PortOfFields(hosts + [Decimal(p1), Decimal(p2)]) == Ok(p1 * 256 + p2)
  {
    var fields := hosts + [Decimal(p1), Decimal(p2)];
    assert fields[4] == Decimal(p1) && fields[5] == Decimal(p2);
    AtoiOfDecimal(p1);
    AtoiOfDecimal(p2);
  }

  /** Only the last field of a tuple needs to be free of separators for the split to give the fields back. */
  lemma SplitOfTuple(hosts: seq<string>, p1: nat, p2: nat)
    requires |hosts| == 4 && forall k :: 0 <= k < 4 ==> ',' !in hosts[k]
    ensures Split(Join(hosts + [Decimal(p1), Decimal(p2)], ','), ',') == hosts + [Decimal(p1), Decimal(p2)]
  {
    var init := hosts + [Decimal(p1)];
    var last := Decimal(p2);
    assert hosts + [Decimal(p1), Decimal(p2)] == init + [last];
    forall k | 0 <= k < |init| ensures ',' !in init[k] {
      if k == 4 { NoSeparatorInDecimal(p1); } else { assert init[k] == hosts[k]; }
    }
    NoSeparatorInDecimal(p2);
    SplitWithout(last, ',');
    SplitOfJoinLast(init, last, ',');
  }

  /**
   * A reply that carries a well-formed tuple `(h1,h2,h3,h4,p1,p2)` after a
   * text without '(' and before a text without ')' gives the port p1 * 256 + p2.
   */
  lemma PasvPortOfTuple(pre: string, hosts: seq<string>, p1: nat, p2: nat, post: string)
    requires '(' !in pre && ')' !in post
    requires |hosts| == 4 && forall k :: 0 <= k < 4 ==> ',' !in hosts[k]
    requires p1 < 256 && p2 < 256
    ensures PasvPort(pre + "(" + Join(hosts + [Decimal(p1), Decimal(p2)], ',') + ")" + post) == Ok(p1 * 256 + p2)
  {
    PasvPortEnclosed(pre, Join(hosts + [Decimal(p1), Decimal(p2)], ','), post);
    SplitOfTuple(hosts, p1, p2);
    PortOfDecimalFields(hosts, p1, p2);
  }

  lemma NoSeparatorInDecimal(n: nat)
    ensures ',' !in Decimal(n)
  {
    var d := Decimal(n);
    forall k | 0 <= k < |d| ensures d[k] != ',' {
      assert IsDigit(d[k]);
    }
  }

  lemma DecimalExample()
    ensures Decimal(19) == "19" && Decimal(136) == "136"
  {
    assert Decimal(1) == "1";
    assert Decimal(13) == "13";
  }

  lemma JoinExample()
    ensures Join(["10", "0", "0", "1", "19", "136"], ',') == "10,0,0,1,19,136"
  {
    JoinCons("19", ["136"], ',');
    JoinCons("1", ["19", "136"], ',');
    assert ["1"] + ["19", "136"] == ["1", "19", "136"];
    JoinCons("0", ["1", "19", "136"], ',');
    assert ["0"] + ["1", "19", "136"] == ["0", "1", "19", "136"];
    JoinCons("0", ["0", "1", "19", "136"], ',');
    assert ["0"] + ["0", "1", "19", "136"] == ["0", "0", "1", "19", "136"];
    JoinCons("10", ["0", "0", "1", "19", "136"], ',');
    assert ["10"] + ["0", "0", "1", "19", "136"] == ["10", "0", "0", "1", "19", "136"];
  }

  /** The example tuple is the form PasvPortOfTuple reads. */
  lemma ExampleShape(hosts: seq<string>)
    requires hosts == ["10", "0", "0", "1"]
    ensures "(" + Join(hosts + [Decimal(19), Decimal(136)], ',') + ")" == "(10,0,0,1,19,136)"
  {
    DecimalExample();
    JoinExample();
    assert hosts + [Decimal(19), Decimal(136)] == ["10", "0", "0", "1", "19", "136"];
  }

  /** A reply carrying the tuple (10,0,0,1,19,136) gives port 19 * 256 + 136; the address fields play no part. */
  lemma PasvExample(pre: string, tuple: string, post: string)
    requires '(' !in pre && ')' !in post
    requires tuple == "(10,0,0,1,19,136)"
    ensures PasvPort(pre + tuple + post) == Ok(5000)
  {
    var hosts := ["10", "0", "0", "1"];
    var fields := Join(hosts + [Decimal(19), Decimal(136)], ',');
    assert "(" + fields + ")" == tuple by {
      ExampleShape(hosts);
    }
    assert PasvPort(pre + "(" + fields + ")" + post) == Ok(19 * 256 + 136) by {
      ExampleHosts(hosts);
      PasvPortOfTuple(pre, hosts, 19, 136, post);
    }
    Regroup(pre, "(", fields, ")", post);
  }

  lemma ExampleHosts(hosts: seq<string>)
    requires hosts == ["10", "0", "0", "1"]
    ensures |hosts| == 4 && forall k :: 0 <= k < 4 ==> ',' !in hosts[k]
  {
  }

  lemma Regroup<T>(a: seq<T>, b: seq<T>, c: seq<T>, d: seq<T>, e: seq<T>)
    ensures a + b + c + d + e == a + (b + c + d) + e
  {
  }

  /**
   * The directory of a PWD reply: the text between the first and the last
   * '"'.  No quote, or a single one: LineFormat.
   */
  function QuotedDirectory(msg: string): (r: Result<string>)
    ensures r.Err? ==> r.error == LineFormat
    ensures r.Ok? ==> |r.value| <= |msg| - 2
  {
    var start := IndexOf(msg, '"');
    var end := LastIndexOf(msg, '"');
    if start == -1 || end == -1 || start >= end then Err(LineFormat) else Ok(msg[start + 1..end])
  }

  /** A PWD reply is rejected exactly when it holds fewer than two quotes. */
  lemma QuotedDirectoryFormat(msg: string)
    ensures QuotedDirectory(msg).Err? <==> Count(msg, '"') < 2
  {
    var c := '"';
    var i := IndexOf(msg, c);
    var j := LastIndexOf(msg, c);
    CountZero(msg, c);
    if i >= 0 {
      CountAround(msg, c, i);
      IndexOfFirst(msg, c);
      CountZero(msg[..i], c);
      LastIndexOfLast(msg, c);
      var after := msg[i + 1..];
      CountZero(after, c);
      forall t | j < t < |msg| ensures msg[t] != c {
        assert msg[j + 1..][t - j - 1] == msg[t];
      }
      if i < j {
        assert after[j - i - 1] == c;
      } else {
        assert after == msg[j + 1..];
      }
    }
  }

  /**
   * The quotes that delimit the directory are the first and the last ones, so
   * a directory name holding quotes of its own comes back whole.
   */
  lemma QuotedDirectoryOfQuote(pre: string, dir: string, post: string)
    requires '"' !in pre && '"' !in post
    ensures QuotedDirectory(pre + "\"" + dir + "\"" + post) == Ok(dir)
  {
    Enclosed(pre, '"', dir, '"', post);
  }
}
