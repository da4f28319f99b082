/** The `<cluster>/<namespace>/<name>` convention for Kubernetes targets. */
module K8sTarget {
  import opened Models

  /** Splits at the first slash, if there is one. */
  function SplitOnce(s: string): (r: Option<(string, string)>)
    ensures r.None? <==> '/' !in s
    ensures r.Some? ==> '/' !in r.value.0 && s == r.value.0 + ['/'] + r.value.1
  {
    if s == [] then None
    else if s[0] == '/' then Some(([], s[1..]))
    else
      match SplitOnce(s[1..])
      case None => None
      case Some((head, tail)) => Some(([s[0]] + head, tail))
  }

  /** Three non-empty parts; further slashes stay in the name. */
  function ParseTarget(target: string): Option<(string, string, string)> {
    match SplitOnce(target)
    case None => None
    case Some((cluster, rest)) =>
      match SplitOnce(rest)
      case None => None
      case Some((namespace, name)) =>
        if cluster == [] || namespace == [] || name == [] then None else Some((cluster, namespace, name))
  }

  lemma {:induction false} SplitOnceIsFirst(head: string, tail: string)
    requires '/' !in head
    ensures SplitOnce(head + ['/'] + tail) == Some((head, tail))
  {
    var s := head + ['/'] + tail;
    if head == [] {
      assert s[1..] == tail;
    } else {
      SplitOnceIsFirst(head[1..], tail);
      assert s[1..] == head[1..] + ['/'] + tail;
      assert [head[0]] + head[1..] == head;
    }
  }

  /** Parsing is the inverse of joining: these parts and no others come out of this target. */
  lemma ParseTargetIsExact(target: string, cluster: string, namespace: string, name: string)
    ensures ParseTarget(target) == Some((cluster, namespace, name)) <==>
      && target == cluster + ['/'] + (namespace + ['/'] + name)
      && '/' !in cluster && '/' !in namespace && cluster != [] && namespace != [] && name != []
  {
    var rest := namespace + ['/'] + name;
    if target == cluster + ['/'] + rest && '/' !in cluster && '/' !in namespace {
      SplitOnceIsFirst(cluster, rest);
      SplitOnceIsFirst(namespace, name);
    }
  }
}
