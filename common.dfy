/** Values shared by every part of the chat backend model: optional values,
    the error object the services throw, and the few string helpers the
    handlers need (decimal rendering of ids, string prefixes). */
module Common {

  datatype Option<+T> = None | Some(value: T) {
    function GetOr(default: T): T {
      match this
      case Some(v) => v
      case None => default
    }
  }

  /** The `type` tag of a thrown `CustomError`.  `Auth` stands for
      `ErrorTypes.AUTH`, which the handlers use although neither enum of
      the source declares it. */
  datatype ErrorType = Validation | Db | Init | Config | BadRequest | Auth

  /** What an operation can throw: the repository's `CustomError`, or the
      rejection of the JSON Web Token verifier, which the services let
      propagate unchanged. */
  datatype Failure =
    | CustomError(status: int, message: string, kind: ErrorType)
    | TokenRejected

  datatype Result<+T> = Ok(value: T) | Err(error: Failure) {
    predicate IsFailure() { Err? }
  }

  type UserId = int
  type ServerId = int
  type ChannelId = int
  type SocketId = string

  /** The two-character prefix `s.slice(0, 2)` of a JavaScript string. */
  function Slice2(s: string): (r: string)
    ensures |r| == if |s| < 2 then |s| else 2
    ensures r <= s
  {
    if |s| < 2 then s else s[..2]
  }

  function DigitChar(d: nat): (c: char)
    requires d < 10
    ensures '0' <= c <= '9'
  {
    "0123456789"[d]
  }

  /** Decimal text of a natural number, most significant digit first. */
  function NatText(n: nat): (s: string)
    ensures |s| >= 1
    ensures forall i :: 0 <= i < |s| ==> '0' <= s[i] <= '9'
  {
    if n < 10 then [DigitChar(n)] else NatText(n / 10) + [DigitChar(n % 10)]
  }

  /** The text JavaScript's template literal `${n}` gives for an integer. */
  function DecimalText(n: int): (s: string)
    ensures |s| >= 1
    ensures s[0] == '-' || '0' <= s[0] <= '9'
  {
    if n < 0 then "-" + NatText(-n) else NatText(n)
  }

  lemma DigitCharInjective(a: nat, b: nat)
    requires a < 10 && b < 10
    ensures DigitChar(a) == DigitChar(b) ==> a == b
  {
  }

  lemma {:induction false} NatTextShort(n: nat)
    ensures |NatText(n)| == 1 <==> n < 10
  {
    if n >= 10 {
      NatTextShort(n / 10);
    }
  }

  /** Different numbers never render to the same decimal text. */
  lemma {:induction false} NatTextInjective(a: nat, b: nat)
    ensures NatText(a) == NatText(b) ==> a == b
  {
    if NatText(a) == NatText(b) {
      NatTextShort(a);
      NatTextShort(b);
      if a < 10 {
        DigitCharInjective(a, b);
      } else {
        var sa, sb := NatText(a), NatText(b);
        assert sa[|sa| - 1] == DigitChar(a % 10);
        assert sb[|sb| - 1] == DigitChar(b % 10);
        DigitCharInjective(a % 10, b % 10);
        assert sa[..|sa| - 1] == NatText(a / 10);
        assert sb[..|sb| - 1] == NatText(b / 10);
        NatTextInjective(a / 10, b / 10);
      }
    }
  }

  lemma DecimalTextInjective(a: int, b: int)
    ensures DecimalText(a) == DecimalText(b) <==> a == b
  {
    if DecimalText(a) == DecimalText(b) {
      if a < 0 && b < 0 {
        var ta, tb := NatText(-a), NatText(-b);
        assert DecimalText(a) == "-" + ta && DecimalText(b) == "-" + tb;
        assert ta == DecimalText(a)[1..];
        assert tb == DecimalText(b)[1..];
        NatTextInjective(-a, -b);
      } else if a >= 0 && b >= 0 {
        NatTextInjective(a, b);
      }
    }
  }

  /** The elements of `s` that satisfy `p`, in their order in `s`: what a
      `WHERE` clause keeps of a table. */
  function Filter<T>(s: seq<T>, p: T -> bool): (r: seq<T>)
    ensures |r| <= |s|
    ensures forall i :: 0 <= i < |r| ==> r[i] in s && p(r[i])
    ensures forall i :: 0 <= i < |s| && p(s[i]) ==> s[i] in r
  {
    if s == [] then []
    else
      var rest := Filter(s[1..], p);
      assert forall i :: 0 <= i < |rest| ==> rest[i] in s by {
        forall i | 0 <= i < |rest| ensures rest[i] in s {
          assert rest[i] in s[1..];
        }
      }
      assert forall i :: 1 <= i < |s| && p(s[i]) ==> s[i] in rest by {
        forall i | 1 <= i < |s| && p(s[i]) ensures s[i] in rest {
          assert s[i] == s[1..][i - 1];
        }
      }
      if p(s[0]) then [s[0]] + rest else rest
  }

  /** Filtering a concatenation filters each part. */
  lemma {:induction false} FilterAppend<T>(s: seq<T>, t: seq<T>, p: T -> bool)
    ensures Filter(s + t, p) == Filter(s, p) + Filter(t, p)
  {
    if s != [] {
      var st := s + t;
      assert st[0] == s[0];
      assert st[1..] == s[1..] + t;
      FilterAppend(s[1..], t, p);
      assert Filter(st, p) == (if p(s[0]) then [s[0]] else []) + Filter(s[1..] + t, p);
    } else {
      assert s + t == t;
    }
  }

  /** Filtering keeps everything when everything passes. */
  lemma {:induction false} FilterAll<T>(s: seq<T>, p: T -> bool)
    requires forall i :: 0 <= i < |s| ==> p(s[i])
    ensures Filter(s, p) == s
  {
    if s != [] {
      FilterAll(s[1..], p);
    }
  }

  /** Filtering keeps nothing when nothing passes. */
  lemma {:induction false} FilterNone<T>(s: seq<T>, p: T -> bool)
    requires forall i :: 0 <= i < |s| ==> !p(s[i])
    ensures Filter(s, p) == []
  {
    if s != [] {
      FilterNone(s[1..], p);
    }
  }

  /** Two filters can be applied in either order. */
  lemma {:induction false} FilterCommutes<T>(s: seq<T>, p: T -> bool, q: T -> bool)
    ensures Filter(Filter(s, p), q) == Filter(Filter(s, q), p)
  {
    if s != [] {
      FilterCommutes(s[1..], p, q);
    }
  }
}
