/** `_resolveTarget`: the output directory is validated, or created when it
    does not exist yet. */
module TargetResolver {
  import opened Wrappers
  import opened FileSystem
  import opened ErrorReporter
  import opened Descriptors

  /** `_resolveTarget(target)`, with the host as it is after the call. The
      directory is created when the path is absent; a path that exists and is
      not a directory is refused. */
  function ResolveTarget(h: Host, target: Path): (r: Result<(Target, Host), Thrown>)
    ensures r.Err? <==> Exists(h, h.resolve(target)) && !IsDir(h, h.resolve(target))
    ensures r.Err? ==> r.error == Failure("Target must be a directory: " + h.resolve(target))
    ensures r.Ok? ==> var (t, h') := r.value;
              && t.target == target && t.resolved == h.resolve(target)
              && t.present
              && (t.created <==> !Exists(h, h.resolve(target)))
              && IsDir(h', t.resolved)
              && h'.resolve == h.resolve
    // A directory that was already there is left alone ...
    ensures r.Ok? && Exists(h, h.resolve(target)) ==> r.value.1 == h
    // ... and a missing one is the only change to the host.
    ensures r.Ok? && !Exists(h, h.resolve(target)) ==> r.value.1 == MakeDirectory(h, h.resolve(target))
  {
    var resolved := h.resolve(target);
    if !Exists(h, resolved) then
      Ok((Target(target, resolved, true, true), MakeDirectory(h, resolved)))
    else if !IsDir(h, resolved) then
      Err(Failure("Target must be a directory: " + resolved))
    else
      Ok((Target(target, resolved, true, false), h))
  }

  /** Resolving a target twice: the second call finds the directory the first
      one left, creates nothing and changes nothing. */
  lemma ResolveTargetIdempotent(h: Host, target: Path)
    requires ResolveTarget(h, target).Ok?
    ensures var (t, h') := ResolveTarget(h, target).value;
            && ResolveTarget(h', target).Ok?
            && ResolveTarget(h', target).value.0 == t.(created := false)
            && ResolveTarget(h', target).value.1 == h'
  {
  }
}
