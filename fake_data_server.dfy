/** The fake data server of the plugin tests (plugin_tests/httpserver.py): a
    GET for "/<number><unit>" answers 200 with number × unit bytes whose i-th
    byte is i mod 256; any other path answers 404. */
module FakeDataServer {
  import opened Base

  /** `MULTIPLIERS`. */
  function Multiplier(unit: string): Option<nat> {
    if unit == "" then Some(1)
    else if unit == "K" then Some(1024)
    else if unit == "M" then Some(1048576)
    else if unit == "G" then Some(1073741824)
    else None
  }

  lemma MultiplierTable()
    ensures Multiplier("") == Some(1) && Multiplier("K") == Some(1024)
    ensures Multiplier("M") == Some(1024 * 1024) && Multiplier("G") == Some(1024 * 1024 * 1024)
    ensures forall u :: Multiplier(u).Some? <==> u in {"", "K", "M", "G"}
  {
  }

  predicate IsDigit(c: char) {
    '0' <= c <= '9'
  }

  /** The first index at or after `from` holding a digit, or |s|. */
  function FirstDigit(s: string, from: nat): (i: nat)
    requires from <= |s|
    ensures from <= i <= |s|
    ensures forall k :: from <= k < i ==> !IsDigit(s[k])
    ensures i < |s| ==> IsDigit(s[i])
    decreases |s| - from
  {
    if from == |s| || IsDigit(s[from]) then from else FirstDigit(s, from + 1)
  }

  /** The first index at or after `from` that does not hold a digit, or |s|. */
  function RunEnd(s: string, from: nat): (i: nat)
    requires from <= |s|
    ensures from <= i <= |s|
    ensures forall k :: from <= k < i ==> IsDigit(s[k])
    ensures i < |s| ==> !IsDigit(s[i])
    decreases |s| - from
  {
    if from == |s| || !IsDigit(s[from]) then from else RunEnd(s, from + 1)
  }

  /** `re.search('[0-9]+', s).group()`: the leftmost run of digits, taken as
      long as it goes; None when there is no digit. */
  function SearchDigits(s: string): (r: Option<string>)
    ensures r.None? <==> forall k :: 0 <= k < |s| ==> !IsDigit(s[k])
    ensures r.Some? ==> r.value != [] && forall k :: 0 <= k < |r.value| ==> IsDigit(r.value[k])
  {
    var start := FirstDigit(s, 0);
    if start == |s| then None else Some(s[start..RunEnd(s, start)])
  }

  /** `int()` of a string of decimal digits. */
  function DigitsValue(s: string): nat
    requires forall k :: 0 <= k < |s| ==> IsDigit(s[k])
    decreases |s|
  {
    if s == [] then 0
    else
      assert IsDigit(s[|s| - 1]);
      DigitsValue(s[..|s| - 1]) * 10 + (s[|s| - 1] as int - '0' as int)
  }

  /** Reading back the decimal digits of a number gives the number. */
  lemma {:induction false} DigitsOfNumber(n: nat)
    ensures DigitsValue(NatToString(n)) == n
    decreases n
  {
    var s := NatToString(n);
    if n >= 10 {
      DigitsOfNumber(n / 10);
      assert s[..|s| - 1] == NatToString(n / 10);
    }
  }

  /** What a GET answers: 200 and the body, or 404 and the error text. */
  datatype Reply = Reply(status: nat, body: seq<byte>) | NotFound(message: string)

  /** The size, in bytes, a path asks for, or the error `do_GET` raises. The
      unit is read from index len(digits) + 1, as if the digits started at
      index 1. */
  function RequestedSize(path: string): (r: Result<nat>)
    ensures SearchDigits(path).None? ==> r == Err(OSError("size pattern not found"))
  {
    match SearchDigits(path)
    case None => Err(OSError("size pattern not found"))
    case Some(digits) =>
      var unit := if |digits| + 1 <= |path| then path[|digits| + 1..] else "";
      match Multiplier(unit)
      case None => Err(OSError("no such unit " + unit))
      case Some(m) => Ok(DigitsValue(digits) * m)
  }

  /** The reply to a GET of `path`. */
  function Respond(path: string): (r: Reply)
    ensures RequestedSize(path).Ok? <==> r.Reply?
    ensures r.Reply? ==> r.status == 200 && |r.body| == RequestedSize(path).value
    ensures r.Reply? ==> forall i :: 0 <= i < |r.body| ==> r.body[i] as int == i % 256
    ensures r.NotFound? ==> r.message == "File Not Found: " + path + " (" + RequestedSize(path).error.message + ")"
  {
    match RequestedSize(path)
    case Err(e) => NotFound("File Not Found: " + path + " (" + e.message + ")")
    case Ok(n) => Reply(200, seq(n, i requires 0 <= i => (i % 256) as byte))
  }

  /** A path with no digit is not found. */
  lemma NoDigitsNotFound(path: string)
    requires forall k :: 0 <= k < |path| ==> !IsDigit(path[k])
    ensures Respond(path) == NotFound("File Not Found: " + path + " (size pattern not found)")
  {
  }

  /** "/<n><unit>" for a known unit asks for n times the unit's multiplier. */
  lemma SizedPath(n: nat, unit: string)
    requires Multiplier(unit).Some?
    ensures RequestedSize("/" + NatToString(n) + unit) == Ok(n * Multiplier(unit).value)
  {
    var digits := NatToString(n);
    var path := "/" + digits + unit;
    assert path[0] == '/';
    assert path[1..1 + |digits|] == digits;
    assert FirstDigit(path, 0) == 1 by {
      assert FirstDigit(path, 1) == 1 by {
        assert path[1] == digits[0];
      }
    }
    assert forall k :: 1 <= k < 1 + |digits| ==> IsDigit(path[k]) by {
      forall k | 1 <= k < 1 + |digits|
        ensures IsDigit(path[k])
      {
        assert path[k] == digits[k - 1];
      }
    }
    assert 1 + |digits| < |path| ==> !IsDigit(path[1 + |digits|]) by {
      assert unit == "" || path[1 + |digits|] == unit[0];
    }
    assert RunEnd(path, 1) == 1 + |digits|;
    assert path[|digits| + 1..] == unit;
    DigitsOfNumber(n);
  }

  /** The unit is read one past the digits, so digits that do not start at
      index 1 misplace it: "/a12" asks for unit "2" and is not found. */
  lemma DigitsAfterIndexOne()
    ensures RequestedSize("/a12") == Err(OSError("no such unit 2"))
  {
    var path := "/a12";
    assert FirstDigit(path, 0) == 2 by {
      assert !IsDigit(path[0]) && !IsDigit(path[1]) && IsDigit(path[2]);
    }
    assert IsDigit(path[2]) && IsDigit(path[3]);
    assert RunEnd(path, 2) == 4;
    assert path[2..4] == "12";
    assert SearchDigits(path) == Some("12");
    assert path[3..] == "2";
    assert Multiplier("2").None? by {
      assert "2"[0] != "K"[0] && "2"[0] != "M"[0] && "2"[0] != "G"[0];
    }
    assert "no such unit " + "2" == "no such unit 2";
  }

  /** The request handler, writing to its output stream. */
  class Handler {
    var status: nat
    var errorMessage: Option<string>
    var written: seq<byte>

    constructor()
      ensures status == 0 && errorMessage.None? && written == []
    {
      status := 0;
      errorMessage := None;
      written := [];
    }

    /** `do_GET`: on success send 200 and write the body one byte at a time;
        otherwise send 404 with the error text. */
    method DoGet(path: string)
      modifies this
      ensures Respond(path).Reply? ==>
        status == 200 && errorMessage == old(errorMessage) && written == old(written) + Respond(path).body
      ensures Respond(path).NotFound? ==>
        status == 404 && errorMessage == Some(Respond(path).message) && written == old(written)
    {
      var size := RequestedSize(path);
      if size.Err? {
        status := 404;
        errorMessage := Some("File Not Found: " + path + " (" + size.error.message + ")");
        return;
      }
      status := 200;
      var szm := size.value;
      ghost var body := Respond(path).body;
      for i := 0 to szm
        invariant written == old(written) + body[..i]
        invariant status == 200 && errorMessage == old(errorMessage)
      {
        assert body[..i + 1] == body[..i] + [(i % 256) as byte];
        written := written + [(i % 256) as byte];
      }
      assert body[..szm] == body;
    }
  }
}
