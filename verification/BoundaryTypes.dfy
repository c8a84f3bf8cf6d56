/** The port types that may cross between two machines, and in which direction. */
module BoundaryTypes {

  const SUPPORTED: set<string> :=
    {"image", "mask", "latent", "conditioning", "string", "float", "int", "bool", "json",
     "audio", "video", "cutlery_lora_chain"}

  const INBOUND_DISALLOWED: set<string> := {"video"}

  const OUTBOUND_DISALLOWED: set<string> := {"mask", "latent", "conditioning", "cutlery_lora_chain"}

  /** Types that leave the remote machine as a JSON blob and are decoded locally. */
  const BLOB_ADAPTED: set<string> := {"mask", "latent", "conditioning"}

  predicate IsSpace(c: char) { c in " \t\n\r" }

  /** Python's `str.strip`, for ASCII white space. */
  function Strip(s: string): string
    decreases |s|
  {
    if s == [] then s
    else if IsSpace(s[0]) then Strip(s[1..])
    else if IsSpace(s[|s| - 1]) then Strip(s[..|s| - 1])
    else s
  }

  /** Python's `str.lower`, for ASCII letters. */
  function Lower(s: string): (r: string)
    ensures |r| == |s|
  {
    seq(|s|, i requires 0 <= i < |s| => if 'A' <= s[i] <= 'Z' then s[i] + 32 as char else s[i])
  }

  function Alias(t: string): string {
    if t == "*" || t == "object" then "json"
    else if t == "integer" then "int"
    else if t == "number" then "float"
    else if t == "boolean" then "bool"
    else t
  }

  /** The canonical port type of a socket type. */
  function Normalize(t: string): string { Alias(Lower(Strip(t))) }

  predicate CanCross(socketType: string) { Normalize(socketType) in SUPPORTED }

  /** The port type a value of type `t` has once the group has sent it out. */
  function OutboundWireType(t: string): string {
    if t in BLOB_ADAPTED then "json" else t
  }

  ghost predicate Plain(t: string) {
    forall i :: 0 <= i < |t| ==> t[i] != ' ' && t[i] != '\t' && t[i] != '\n' && t[i] != '\r' && !('A' <= t[i] <= 'Z')
  }

  /** Canonical types are fixed points of the normalisation. */
  lemma NormalizePlain(t: string)
    requires Plain(t) && Alias(t) == t
    ensures Normalize(t) == t && Strip(t) == t
  {
    assert Strip(t) == t;
    assert Lower(t) == t;
  }

  lemma SupportedIsPlain(t: string)
    requires t in SUPPORTED
    ensures Plain(t) && Alias(t) == t && t != ""
  {
    hide Plain;
    if t in {"image", "mask", "latent", "conditioning"} {
      ImagesArePlain(t);
    } else if t in {"string", "float", "int", "bool"} {
      ScalarsArePlain(t);
    } else {
      OthersArePlain(t);
    }
  }

  lemma ImagesArePlain(t: string)
    requires t in {"image", "mask", "latent", "conditioning"}
    ensures Plain(t)
  {
  }

  lemma ScalarsArePlain(t: string)
    requires t in {"string", "float", "int", "bool"}
    ensures Plain(t)
  {
  }

  lemma OthersArePlain(t: string)
    requires t in {"json", "audio", "video", "cutlery_lora_chain"}
    ensures Plain(t)
  {
  }

  lemma NormalizeSupported(t: string)
    requires t in SUPPORTED
    ensures Normalize(t) == t && Strip(t) == t && t != ""
  {
    SupportedIsPlain(t);
    NormalizePlain(t);
  }

  // ---- what normalisation means for any text ----

  ghost predicate AllSpace(s: string) { forall i :: 0 <= i < |s| ==> IsSpace(s[i]) }

  /** Neither begins nor ends with white space. */
  ghost predicate Trimmed(s: string) { s != [] ==> !IsSpace(s[0]) && !IsSpace(s[|s| - 1]) }

  /** `Strip` takes off the white space around a text, and nothing else: there is no other trimmed middle. */
  lemma {:induction false} StripIsMiddle(before: string, middle: string, after: string)
    requires AllSpace(before) && Trimmed(middle) && AllSpace(after)
    ensures Strip(before + middle + after) == middle
    decreases |before| + |after|
  {
    var all := before + middle + after;
    if before != [] {
      assert all[0] == before[0] && all[1..] == before[1..] + middle + after;
      StripIsMiddle(before[1..], middle, after);
    } else if middle == [] && after != [] {
      assert all[0] == after[0] && all[1..] == [] + middle + after[1..];
      StripIsMiddle([], middle, after[1..]);
    } else if after != [] {
      assert all[0] == middle[0] && all[|all| - 1] == after[|after| - 1];
      assert all[..|all| - 1] == [] + middle + after[..|after| - 1];
      StripIsMiddle([], middle, after[..|after| - 1]);
    } else {
      assert all == middle;
    }
  }

  /** Every text has such a middle. */
  lemma {:induction false} HasMiddle(s: string) returns (before: string, middle: string, after: string)
    ensures s == before + middle + after && AllSpace(before) && Trimmed(middle) && AllSpace(after)
    decreases |s|
  {
    if s != [] && IsSpace(s[0]) {
      before, middle, after := HasMiddle(s[1..]);
      assert s == [s[0]] + s[1..] == ([s[0]] + before) + middle + after;
      before := [s[0]] + before;
    } else if s != [] && IsSpace(s[|s| - 1]) {
      before, middle, after := HasMiddle(s[..|s| - 1]);
      assert s == s[..|s| - 1] + [s[|s| - 1]] == before + middle + (after + [s[|s| - 1]]);
      after := after + [s[|s| - 1]];
    } else {
      before, middle, after := [], s, [];
    }
  }

  /** `Lower` turns each capital letter into the small letter at its place in the alphabet, and nothing else. */
  lemma LowerFoldsLetters(t: string, i: nat)
    requires i < |t|
    ensures 'A' <= t[i] <= 'Z' ==> Lower(t)[i] as int - 'a' as int == t[i] as int - 'A' as int
    ensures !('A' <= t[i] <= 'Z') ==> Lower(t)[i] == t[i]
  {
  }

  /** Two characters are the same letter, or the same character. */
  predicate SameLetter(c: char, d: char) {
    || c == d
    || ('A' <= c <= 'Z' && 'a' <= d <= 'z' && c as int - 'A' as int == d as int - 'a' as int)
    || ('a' <= c <= 'z' && 'A' <= d <= 'Z' && c as int - 'a' as int == d as int - 'A' as int)
  }

  predicate SameUpToCase(a: string, b: string) {
    |a| == |b| && forall i :: 0 <= i < |a| ==> SameLetter(a[i], b[i])
  }

  lemma LowerAlike(a: string, b: string)
    ensures Lower(a) == Lower(b) <==> SameUpToCase(a, b)
  {
    if Lower(a) == Lower(b) {
      forall i | 0 <= i < |a| ensures SameLetter(a[i], b[i]) { assert Lower(a)[i] == Lower(b)[i]; }
    }
  }

  lemma LowerTwice(t: string)
    ensures Lower(Lower(t)) == Lower(t)
  {
  }

  lemma LowerKeepsSpace(t: string)
    ensures AllSpace(t) ==> AllSpace(Lower(t))
    ensures Trimmed(t) ==> Trimmed(Lower(t))
  {
  }

  lemma LowerJoins(a: string, b: string, c: string)
    ensures Lower(a + b + c) == Lower(a) + Lower(b) + Lower(c)
  {
  }

  lemma StripTwice(t: string)
    ensures Strip(Strip(t)) == Strip(t)
  {
    hide *;
    var before, middle, after := HasMiddle(t);
    StripIsMiddle(before, middle, after);
    TrimmedStays(middle);
  }

  lemma TrimmedStays(t: string)
    requires Trimmed(t)
    ensures Strip(t) == t
  {
    assert AllSpace([]) && [] + t + [] == t;
    hide *;
    StripIsMiddle([], t, []);
  }

  lemma BlankExactly(t: string)
    ensures Strip(t) == "" <==> AllSpace(t)
  {
    hide *;
    var before, middle, after := HasMiddle(t);
    StripIsMiddle(before, middle, after);
    SpaceJoins(before, middle, after);
  }

  lemma SpaceJoins(before: string, middle: string, after: string)
    requires AllSpace(before) && Trimmed(middle) && AllSpace(after)
    ensures AllSpace(before + middle + after) <==> middle == ""
  {
    if middle != "" { assert (before + middle + after)[|before|] == middle[0]; }
  }

  lemma StripLower(t: string)
    ensures Strip(Lower(t)) == Lower(Strip(t))
  {
    hide *;
    var before, middle, after := HasMiddle(t);
    StripIsMiddle(before, middle, after);
    LowerKeepsSpace(before);
    LowerKeepsSpace(middle);
    LowerKeepsSpace(after);
    StripIsMiddle(Lower(before), Lower(middle), Lower(after));
    LowerJoins(before, middle, after);
  }

  /** Normalisation does not see case, nor white space around the type. */
  lemma NormalizeIsBlind(before: string, t: string, after: string)
    requires AllSpace(before) && AllSpace(after)
    ensures Normalize(before + t + after) == Normalize(t) == Normalize(Lower(t))
  {
    StripLower(t);
    LowerTwice(Strip(t));
    var b, middle, a := HasMiddle(t);
    StripIsMiddle(b, middle, a);
    StripIsMiddle(before + b, middle, a + after);
    assert before + t + after == (before + b) + middle + (a + after);
  }

  lemma NormalizeTwice(t: string)
    ensures Normalize(Normalize(t)) == Normalize(t)
  {
    var plain := Lower(Strip(t));
    StripLower(t);
    StripTwice(t);
    StripLower(Strip(t));
    LowerTwice(Strip(t));
    if Alias(plain) != plain { NormalizeSupported(Alias(plain)); }
    hide Strip, Lower;
  }

  /** ComfyUI's socket type for each port type. */
  const SOCKETS: map<string, string> :=
    map["image" := "IMAGE", "mask" := "MASK", "latent" := "LATENT", "conditioning" := "CONDITIONING",
        "string" := "STRING", "float" := "FLOAT", "int" := "INT", "bool" := "BOOLEAN", "json" := "*",
        "audio" := "AUDIO", "video" := "VIDEO", "cutlery_lora_chain" := "CUTLERY_LORA_CHAIN"]

  /** The other names of port types. */
  const ALIASES: map<string, string> :=
    map["object" := "json", "integer" := "int", "number" := "float", "boolean" := "bool"]

  /** The text, all letters small, is `lower`. */
  predicate Folds(t: string, lower: string) {
    |lower| == |t| && forall i :: 0 <= i < |t| ==> lower[i] == if 'A' <= t[i] <= 'Z' then t[i] + 32 as char else t[i]
  }

  lemma NormalizedAs(t: string, lower: string)
    requires Folds(t, lower) && Trimmed(lower)
    ensures Normalize(t) == Alias(lower)
  {
    assert Lower(t) == lower;
    hide Lower;
    StripLower(t);
    TrimmedStays(lower);
  }

  /** Every socket type of a port type can cross, as that port type. */
  lemma SocketsNormalize(port: string)
    requires port in SUPPORTED
    ensures port in SOCKETS && Normalize(SOCKETS[port]) == port && CanCross(SOCKETS[port])
  {
    hide Normalize;
    if port in {"image", "mask", "int"} {
      ShortSockets(port);
    } else if port in {"latent", "string", "float"} {
      ScalarSockets(port);
    } else if port in {"json", "bool"} {
      RenamedSockets(port);
    } else if port in {"audio", "video"} {
      StreamSockets(port);
    } else if port == "conditioning" {
      ConditioningSocket();
    } else {
      LoraSocket();
    }
  }

  lemma ConditioningSocket()
    ensures Normalize(SOCKETS["conditioning"]) == "conditioning"
  {
    NormalizedAs("CONDITIONING", "conditioning");
  }

  lemma LoraSocket()
    ensures Normalize(SOCKETS["cutlery_lora_chain"]) == "cutlery_lora_chain"
  {
    NormalizedAs("CUTLERY_LORA_CHAIN", "cutlery_lora_chain");
  }

  lemma ShortSockets(port: string)
    requires port in {"image", "mask", "int"}
    ensures Normalize(SOCKETS[port]) == port
  {
    NormalizedAs(SOCKETS[port], port);
  }

  lemma ScalarSockets(port: string)
    requires port in {"latent", "string", "float"}
    ensures Normalize(SOCKETS[port]) == port
  {
    NormalizedAs(SOCKETS[port], port);
  }

  lemma RenamedSockets(port: string)
    requires port in {"json", "bool"}
    ensures Normalize(SOCKETS[port]) == port
  {
    NormalizedAs("*", "*");
    NormalizedAs("BOOLEAN", "boolean");
  }

  lemma StreamSockets(port: string)
    requires port in {"audio", "video"}
    ensures Normalize(SOCKETS[port]) == port
  {
    NormalizedAs(SOCKETS[port], port);
  }

  predicate NamesPortType(lower: string) { lower in SUPPORTED || lower in ALIASES || lower == "*" }

  lemma AliasInTable(lower: string)
    ensures Alias(lower) in SUPPORTED <==> NamesPortType(lower)
    ensures lower in ALIASES ==> Alias(lower) == ALIASES[lower]
  {
    if lower in SUPPORTED { SupportedIsPlain(lower); }
  }

  /** A type can cross exactly if, without white space and in small letters, it is a port type or a name of one. */
  lemma CanCrossExactly(before: string, name: string, after: string, lower: string)
    requires AllSpace(before) && Trimmed(name) && AllSpace(after) && Folds(name, lower)
    ensures CanCross(before + name + after) <==> NamesPortType(lower)
    ensures lower in ALIASES ==> Normalize(before + name + after) == ALIASES[lower]
  {
    assert Lower(name) == lower;
    AliasInTable(lower);
    hide Lower, Strip, Alias, SUPPORTED, ALIASES, NamesPortType;
    NormalizeIsBlind(before, name, after);
    TrimmedStays(name);
  }

  /** A loaded model, a text encoder and an image decoder have no port type. */
  lemma RuntimeObjectsStay()
    ensures !CanCross("MODEL") && !CanCross("CLIP") && !CanCross("VAE")
  {
    hide CanCross;
    ModelStays();
    ClipStays();
    DecoderStays();
  }

  lemma ModelStays()
    ensures !CanCross("MODEL")
  {
    hide Alias;
    NormalizedAs("MODEL", "model");
    AliasInTable("model");
  }

  lemma ClipStays()
    ensures !CanCross("CLIP")
  {
    hide Alias;
    NormalizedAs("CLIP", "clip");
    AliasInTable("clip");
  }

  lemma DecoderStays()
    ensures !CanCross("VAE")
  {
    hide Alias;
    NormalizedAs("VAE", "vae");
    AliasInTable("vae");
  }
}
