/** `get_base_path` (src/blender_camera/utils.py): the `BASE_PATH`
    environment value normalised to a mount prefix. */
module Utils {
  import opened Wrappers

  /** Every character of `s` is a slash (vacuously so for ""). */
  predicate AllSlashes(s: string) {
    forall i :: 0 <= i < |s| ==> s[i] == '/'
  }

  /** The number of leading slashes of `s`. */
  function LeadingSlashes(s: string): (n: nat)
    ensures n <= |s|
    ensures AllSlashes(s[..n])
    ensures n < |s| ==> s[n] != '/'
  {
    if |s| > 0 && s[0] == '/' then 1 + LeadingSlashes(s[1..]) else 0
  }

  /** The number of trailing slashes of `s`. */
  function TrailingSlashes(s: string): (n: nat)
    ensures n <= |s|
    ensures AllSlashes(s[|s| - n..])
    ensures n < |s| ==> s[|s| - n - 1] != '/'
  {
    if |s| > 0 && s[|s| - 1] == '/' then 1 + TrailingSlashes(s[..|s| - 1]) else 0
  }

  /** `s.lstrip("/")` */
  function LStrip(s: string): (r: string)
    ensures r == s[LeadingSlashes(s)..]
  {
    if |s| > 0 && s[0] == '/' then LStrip(s[1..]) else s
  }

  /** `s.rstrip("/")` */
  function RStrip(s: string): (r: string)
    ensures r == s[..|s| - TrailingSlashes(s)]
  {
    if |s| > 0 && s[|s| - 1] == '/' then RStrip(s[..|s| - 1]) else s
  }

  /** Trailing slashes stop at a character that is not a slash: prefixing
      a string that has one does not change how many there are. */
  lemma {:induction false} TrailingSlashesOfConcat(p: string, q: string)
    requires !AllSlashes(q)
    ensures TrailingSlashes(p + q) == TrailingSlashes(q)
    decreases |q|
  {
    assert |q| > 0;
    var pq := p + q;
    assert pq[|pq| - 1] == q[|q| - 1];
    if q[|q| - 1] == '/' {
      var q' := q[..|q| - 1];
      assert !AllSlashes(q') by {
        var i :| 0 <= i < |q| && q[i] != '/';
        assert i < |q| - 1 && q'[i] == q[i];
      }
      assert pq[..|pq| - 1] == p + q';
      TrailingSlashesOfConcat(p, q');
    }
  }

  /** `get_base_path`'s normalisation of a `BASE_PATH` value: "" stays "";
      otherwise leading slashes are replaced by one, then trailing slashes
      are dropped. So a value made only of slashes becomes "", and any
      other value becomes "/" followed by its characters between the
      leading and the trailing slashes. */
  function NormalizeBasePath(s: string): (r: string)
    ensures AllSlashes(s) ==> r == ""
    ensures !AllSlashes(s) ==> r == "/" + s[LeadingSlashes(s)..|s| - TrailingSlashes(s)]
    ensures r == "" || (r[0] == '/' && r[|r| - 1] != '/')
  {
    if s == "" then s
    else
      var lead := LeadingSlashes(s);
      var stripped := LStrip(s);
      if AllSlashes(s) then
        assert lead == |s|;
        assert TrailingSlashes("/" + stripped) == 1;
        RStrip("/" + stripped)
      else
        assert lead < |s|;
        assert !AllSlashes(stripped) by {
          assert stripped[0] == s[lead];
        }
        TrailingSlashesOfConcat("/", stripped);
        TrailingStrip(s, lead);
        RStrip("/" + stripped)
  }

  /** Removing leading slashes leaves the trailing ones alone when the
      string is not all slashes. */
  lemma TrailingStrip(s: string, lead: nat)
    requires lead == LeadingSlashes(s) && lead < |s|
    ensures TrailingSlashes(s[lead..]) == TrailingSlashes(s)
  {
    assert s == s[..lead] + s[lead..];
    assert !AllSlashes(s[lead..]) by {
      assert s[lead..][0] == s[lead];
    }
    TrailingSlashesOfConcat(s[..lead], s[lead..]);
  }

  /** `get_base_path()` with the environment lookup passed in: an unset
      `BASE_PATH` reads as "". */
  function GetBasePath(env: Option<string>): (r: string)
    ensures env.None? ==> r == ""
    ensures env.Some? && AllSlashes(env.value) ==> r == ""
    ensures env.Some? && !AllSlashes(env.value) ==>
              r == "/" + env.value[LeadingSlashes(env.value)..|env.value| - TrailingSlashes(env.value)]
  {
    NormalizeBasePath(env.GetOr(""))
  }

  /** Normalising an already normalised base path returns it unchanged. */
  lemma NormalizeIdempotent(s: string)
    ensures NormalizeBasePath(NormalizeBasePath(s)) == NormalizeBasePath(s)
  {
    var r := NormalizeBasePath(s);
    if r != "" {
      assert !AllSlashes(r) by {
        assert r[|r| - 1] != '/';
      }
      assert LeadingSlashes(r) == 1 by {
        if |r| > 1 {
          assert r[1..][0] == r[1];
        }
      }
      assert TrailingSlashes(r) == 0;
    }
  }
}
