/** MQTT topic names and filters, and their mapping to Zenoh key expressions. */
module Topic {
  import opened Common
  import opened Strings

  datatype TopicError =
    | Empty
    | EmptyLevel
    | WildcardInTopic(c: char)
    | HashNotLast
    | PartialWildcard(level: string)
    | ReservedChar(c: char)

  const SYS_PREFIX := "$SYS"
  const SYS_CHUNK := "@sys"
  const META_PREFIX := "$meta"
  const META_CHUNK := "@meta"
  const RETAINED_CHUNK := "@retained"

  // ---------------------------------------------------------------- validation

  /** The first character of `level` that is Zenoh syntax, if any. */
  function FirstReserved(level: string): Option<TopicError> {
    if level == "" then None
    else if level[0] in {'*', '$', '?'} then Some(ReservedChar(level[0]))
    else FirstReserved(level[1..])
  }

  function CheckLevelChars(level: string): Option<TopicError> {
    if "@" <= level then Some(ReservedChar('@')) else FirstReserved(level)
  }

  function Levels(s: string): Result<seq<string>, TopicError> {
    if s == "" then Err(Empty)
    else
      var parts := Split(s, '/');
      if "" in parts then Err(EmptyLevel) else Ok(parts)
  }

  function Scoped(scope: string, ke: string): string {
    if scope == "" then ke else scope + "/" + ke
  }

  // ---------------------------------------------------------------- publish topics

  function TopicLevelError(level: string): Option<TopicError> {
    if '+' in level then Some(WildcardInTopic('+'))
    else if '#' in level then Some(WildcardInTopic('#'))
    else CheckLevelChars(level)
  }

  function FirstTopicError(parts: seq<string>): Option<TopicError> {
    if parts == [] then None
    else if TopicLevelError(parts[0]).Some? then TopicLevelError(parts[0])
    else FirstTopicError(parts[1..])
  }

  function TopicToKeyexpr(topic: string, scope: string): Result<string, TopicError> {
    match Levels(topic)
    case Err(e) => Err(e)
    case Ok(parts) =>
      match FirstTopicError(parts)
      case Some(e) => Err(e)
      case None => Ok(Scoped(scope, Join(parts, '/')))
  }

  // ---------------------------------------------------------------- subscription filters

  /** Translation of one filter level, given whether it is the first and the last one. */
  function FilterChunk(level: string, first: bool, last: bool): Result<string, TopicError> {
    if level == SYS_PREFIX && first then Ok(SYS_CHUNK)
    else if level == META_PREFIX && first then Ok(META_CHUNK)
    else if level == "+" then Ok("*")
    else if level == "#" then (if last then Ok("**") else Err(HashNotLast))
    else if '+' in level || '#' in level then Err(PartialWildcard(level))
    else
      match CheckLevelChars(level)
      case Some(e) => Err(e)
      case None => Ok(level)
  }

  /** Translation of a run of filter levels, reporting the leftmost error. */
  function FilterChunks(parts: seq<string>, first: bool): (r: Result<seq<string>, TopicError>)
    ensures r.Ok? ==> |r.value| == |parts|
  {
    if parts == [] then Ok([])
    else
      match FilterChunk(parts[0], first, |parts| == 1)
      case Err(e) => Err(e)
      case Ok(chunk) =>
        match FilterChunks(parts[1..], false)
        case Err(e) => Err(e)
        case Ok(rest) => Ok([chunk] + rest)
  }

  function FilterToKeyexpr(filter: string, scope: string): Result<string, TopicError> {
    match Levels(filter)
    case Err(e) => Err(e)
    case Ok(parts) =>
      match FilterChunks(parts, true)
      case Err(e) => Err(e)
      case Ok(chunks) => Ok(Scoped(scope, Join(chunks, '/')))
  }

  /** The translation as it runs: one pass that pushes a chunk per level. */
  method TranslateFilter(filter: string, scope: string) returns (r: Result<string, TopicError>)
    ensures r == FilterToKeyexpr(filter, scope)
  {
    var split := Levels(filter);
    if split.Err? {
      return Err(split.error);
    }
    var parts := split.value;
    var out: seq<string> := [];
    var i := 0;
    ghost var all := FilterChunks(parts, true);
    assert parts[0..] == parts && (all.Ok? ==> out + all.value == all.value);
    while i < |parts|
      invariant 0 <= i <= |parts| && |out| == i
      invariant var rest := FilterChunks(parts[i..], i == 0);
        all == if rest.Ok? then Ok(out + rest.value) else rest
    {
      var chunk := FilterChunk(parts[i], i == 0, i == |parts| - 1);
      assert parts[i..][1..] == parts[i + 1..];
      if chunk.Err? {
        return Err(chunk.error);
      }
      ghost var rest := FilterChunks(parts[i + 1..], false);
      assert rest.Ok? ==> out + ([chunk.value] + rest.value) == out + [chunk.value] + rest.value;
      out := out + [chunk.value];
      i := i + 1;
    }
    assert out + [] == out;
    r := Ok(Scoped(scope, Join(out, '/')));
  }

  // ---------------------------------------------------------------- back from keys

  function StripScope(ke: string, scope: string): Option<string> {
    if scope == "" then Some(ke)
    else
      match StripPrefix(ke, scope)
      case None => None
      case Some(rest) => StripPrefix(rest, "/")
  }

  /** The part after `chunk/`, as a topic under `prefix`. */
  function Surface(afterChunk: string, prefix: string): Option<string> {
    match StripPrefix(afterChunk, "/")
    case None => None
    case Some(suffix) => Some(prefix + "/" + suffix)
  }

  function KeyexprToTopic(ke: string, scope: string): Option<string> {
    match StripScope(ke, scope)
    case None => None
    case Some(rest) =>
      if SYS_CHUNK <= rest then Surface(rest[|SYS_CHUNK|..], SYS_PREFIX)
      else if META_CHUNK <= rest then Surface(rest[|META_CHUNK|..], META_PREFIX)
      else if "@" <= rest then None
      else Some(rest)
  }

  function RetainedKeyexpr(topic: string, scope: string): string {
    Scoped(scope, RETAINED_CHUNK + "/" + topic)
  }

  function RetainedFilter(scope: string): string {
    Scoped(scope, RETAINED_CHUNK + "/**")
  }

  function RetainedKeyexprToTopic(ke: string, scope: string): Option<string> {
    match StripScope(ke, scope)
    case None => None
    case Some(rest) =>
      match StripPrefix(rest, RETAINED_CHUNK)
      case None => None
      case Some(tail) => StripPrefix(tail, "/")
  }

  function SysKeyexpr(suffix: string, scope: string): string {
    Scoped(scope, SYS_CHUNK + "/" + suffix)
  }

  function MetaKeyexpr(topic: string, scope: string): string {
    Scoped(scope, META_CHUNK + "/" + topic)
  }

  // ---------------------------------------------------------------- matching and coverage

  /** Section 4.7.1 of MQTT 3.1.1 on level lists: `+` is one level, a final `#` any number. */
  predicate LevelsMatch(f: seq<string>, t: seq<string>) {
    if f == [] then t == []
    else if f[0] == "#" then true
    else t != [] && (f[0] == "+" || f[0] == t[0]) && LevelsMatch(f[1..], t[1..])
  }

  predicate TopicMatches(filter: string, topic: string) {
    LevelsMatch(Split(filter, '/'), Split(topic, '/'))
  }

  method MatchTopic(filter: string, topic: string) returns (r: bool)
    ensures r == TopicMatches(filter, topic)
  {
    var f := Split(filter, '/');
    var t := Split(topic, '/');
    var i := 0;
    while i < |f|
      invariant 0 <= i <= |f| && i <= |t|
      invariant LevelsMatch(f, t) == LevelsMatch(f[i..], t[i..])
    {
      var level := f[i];
      if level == "#" {
        return true;
      } else if level == "+" {
        if i >= |t| {
          return false;
        }
      } else if i >= |t| || t[i] != level {
        return false;
      }
      assert f[i..][1..] == f[i + 1..] && t[i..][1..] == t[i + 1..];
      i := i + 1;
    }
    r := |f| == |t|;
  }

  predicate LevelsCover(o: seq<string>, i: seq<string>) {
    if o == [] then i == []
    else if o[0] == "#" then true
    else
      && i != []
      && (if o[0] == "+" then i[0] != "#" else o[0] == i[0])
      && LevelsCover(o[1..], i[1..])
  }

  predicate FilterCovers(outer: string, inner: string) {
    LevelsCover(Split(outer, '/'), Split(inner, '/'))
  }

  method CoverFilter(outer: string, inner: string) returns (r: bool)
    ensures r == FilterCovers(outer, inner)
  {
    var o := Split(outer, '/');
    var i := Split(inner, '/');
    var idx := 0;
    while true
      invariant 0 <= idx <= |o| && idx <= |i|
      invariant LevelsCover(o, i) == LevelsCover(o[idx..], i[idx..])
      decreases |o| - idx
    {
      assert idx < |o| ==> o[idx..][1..] == o[idx + 1..];
      assert idx < |i| ==> i[idx..][1..] == i[idx + 1..];
      if idx < |o| && o[idx] == "#" {
        return true;
      } else if idx < |o| && idx < |i| && o[idx] == "+" {
        if i[idx] == "#" {
          return false;
        }
      } else if idx < |o| && idx < |i| {
        if o[idx] != i[idx] {
          return false;
        }
      } else if idx == |o| && idx == |i| {
        return true;
      } else {
        return false;
      }
      idx := idx + 1;
    }
  }
}
