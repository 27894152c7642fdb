/** `ContentProcessor.process_webhook_payload` and its two dispatchers:
    collection payloads and global payloads are routed by name; unknown
    names, and the names whose handlers only delegate, get the generic
    processing. Any exception yields no chunks at all. */
module Webhook {
  import opened Options
  import opened Json
  import opened Environment
  import opened Chunks
  import opened Processors
  import opened Departments

  /** `_process_collection_content`. */
  function CollectionHandler(name: Json, data: Json, env: Env): Option<seq<Piece>> {
    if name == JStr("announcements") then Announcement(data, env)
    else if name == JStr("blog-posts") then Generic(JStr("blog-posts"), data, "collection", env)
    else if name == JStr("testimonials") then Generic(JStr("testimonials"), data, "collection", env)
    else if name == JStr("departments") then Generic(JStr("departments"), data, "collection", env)
    else if name == JStr("department-sections") then DepartmentSection(data, env)
    else if name == JStr("coe") then Generic(JStr("coe"), data, "collection", env)
    else if name == JStr("dynamic-pages") then Generic(JStr("dynamic-pages"), data, "collection", env)
    else Generic(name, data, "collection", env)
  }

  /** `_process_global_content`. */
  function GlobalHandler(name: Json, data: Json, env: Env): Option<seq<Piece>> {
    if name == JStr("admissions") then Generic(JStr("admissions"), data, "global", env)
    else if name == JStr("about") then About(data, env)
    else if name == JStr("academics") then Generic(JStr("academics"), data, "global", env)
    else if name == JStr("placement") then Generic(JStr("placement"), data, "global", env)
    else if name == JStr("research") then Generic(JStr("research"), data, "global", env)
    else if name == JStr("facilities") then Generic(JStr("facilities"), data, "global", env)
    else Generic(name, data, "global", env)
  }

  /** Every collection other than announcements and department sections,
      named or not, is processed generically under its own name. */
  lemma CollectionsMostlyGeneric(name: Json, data: Json, env: Env)
    requires name != JStr("announcements") && name != JStr("department-sections")
    ensures CollectionHandler(name, data, env) == Generic(name, data, "collection", env)
  {
    if name == JStr("blog-posts") {
    } else if name == JStr("testimonials") {
    } else if name == JStr("departments") {
    } else if name == JStr("coe") {
    } else if name == JStr("dynamic-pages") {
    } else {
      assert CollectionHandler(name, data, env) == Generic(name, data, "collection", env);
    }
  }

  /** Every global other than `about` is processed generically under its
      own name. */
  lemma GlobalsMostlyGeneric(name: Json, data: Json, env: Env)
    requires name != JStr("about")
    ensures GlobalHandler(name, data, env) == Generic(name, data, "global", env)
  {
    if name == JStr("admissions") {
    } else if name == JStr("academics") {
    } else if name == JStr("placement") {
    } else if name == JStr("research") {
    } else if name == JStr("facilities") {
    } else {
      assert GlobalHandler(name, data, env) == Generic(name, data, "global", env);
    }
  }

  /** `payload.get('collection') or payload.get('global')`. */
  function ContentType(payload: Json): Json {
    Or(GetOr(payload, "collection", JNull), GetOr(payload, "global", JNull))
  }

  /** The handler's chunks, or `None` when the payload is not a dict, has
      no truthy type, or its handler raises. The presence of the
      `collection` key, not its value, selects the collection dispatcher. */
  function Handle(payload: Json, env: Env): (r: Option<seq<Piece>>)
    ensures !payload.JObj? || !Truthy(ContentType(payload)) ==> r.None?
  {
    if !payload.JObj? then None
    else
      var contentType := ContentType(payload);
      var data := GetOr(payload, "data", JObj([]));
      if !Truthy(contentType) then None
      else if HasKey(payload, "collection") then CollectionHandler(contentType, data, env)
      else if HasKey(payload, "global") then GlobalHandler(contentType, data, env)
      else None
  }

  /** `process_webhook_payload(payload)`: the handler's chunks, each with a
      freshly drawn id, or no chunks at all. */
  function ProcessWebhookPayload(payload: Json, env: Env): (r: seq<ContentChunk>)
    ensures !payload.JObj? || !Truthy(ContentType(payload)) ==> r == []
    ensures forall k :: 0 <= k < |r| ==> r[k].chunkId == env.ids(k)
    ensures Handle(payload, env).Some? ==>
      |r| == |Handle(payload, env).value| && forall k :: 0 <= k < |r| ==> Unstamp(r[k]) == Handle(payload, env).value[k]
  {
    match Handle(payload, env)
    case None => []
    case Some(pieces) => Stamp(pieces, env.ids)
  }

  /** A payload with a truthy type always names one of the two keys, so the
      final `else` of the dispatch is never taken. */
  lemma TypedPayloadIsDispatched(payload: Json)
    requires payload.JObj? && Truthy(ContentType(payload))
    ensures HasKey(payload, "collection") || HasKey(payload, "global")
  {
  }

  /** A payload carrying a `collection` key goes to the collection
      dispatcher even when that key's value is falsy and the type comes
      from `global`: such a global is processed as an unknown collection. */
  lemma CollectionKeyWins(payload: Json, env: Env)
    requires payload.JObj? && HasKey(payload, "collection") && !Truthy(Get(payload, "collection").value)
    requires Truthy(GetOr(payload, "global", JNull))
    requires GetOr(payload, "global", JNull) != JStr("announcements")
    requires GetOr(payload, "global", JNull) != JStr("department-sections")
    ensures Handle(payload, env)
         == Generic(GetOr(payload, "global", JNull), GetOr(payload, "data", JObj([])), "collection", env)
  {
    CollectionsMostlyGeneric(GetOr(payload, "global", JNull), GetOr(payload, "data", JObj([])), env);
  }

  /** A handler that raises leaves no chunk behind. */
  lemma FailureYieldsNothing(payload: Json, env: Env)
    requires Handle(payload, env).None?
    ensures ProcessWebhookPayload(payload, env) == []
  {
  }
}
