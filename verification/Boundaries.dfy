/** Calls that leave the recorded program: which the daemon counts, which the instrumenter rewrites. */
module Boundaries {

  predicate StartsWith(s: string, prefix: string) {
    prefix <= s
  }

  predicate Io(owner: string) {
    StartsWith(owner, "java/io/") || StartsWith(owner, "java/nio/file/") || StartsWith(owner, "java/net/")
  }

  predicate SupportedFile(owner: string, name: string) {
    owner == "java/nio/file/Files" && (name == "readAllBytes" || name == "readString")
  }

  predicate RandomSource(owner: string) {
    || StartsWith(owner, "java/util/Random") || owner == "java/util/SplittableRandom"
    || StartsWith(owner, "java/util/random/") || owner == "java/util/concurrent/ThreadLocalRandom"
    || owner == "java/security/SecureRandom"
  }

  predicate Nondeterministic(owner: string, name: string) {
    || (owner == "java/lang/System" && (name == "currentTimeMillis" || name == "nanoTime"))
    || (StartsWith(owner, "java/time/") && name == "now")
    || (RandomSource(owner) && (StartsWith(name, "next") || name == "generateSeed"))
    || (owner == "java/util/UUID" && name == "randomUUID")
    || (owner == "java/lang/Math" && name == "random")
  }

  /** The capabilities a call takes away, as `classify_boundary` names them. */
  function Crossed(owner: string, name: string): set<string> {
    (if Io(owner) then {"io"} else {})
    + (if owner == "java/lang/ProcessBuilder" || (owner == "java/lang/Runtime" && name == "exec") then {"subprocess"} else {})
    + (if owner == "java/lang/System" && name == "getenv" then {"environment"} else {})
    + (if owner == "java/lang/System" && name == "getProperty" then {"systemProperties"} else {})
    + (if Nondeterministic(owner, name) then {"nondeterminism"} else {})
    + (if (owner == "java/lang/System" || owner == "java/lang/Runtime") && (name == "load" || name == "loadLibrary")
       then {"native"} else {})
  }

  datatype Opcode = InvokeStatic | InvokeVirtual | OtherInvoke

  datatype Site = Site(opcode: Opcode, owner: string, name: string, descriptor: string)

  /** What a call site becomes in full mode. */
  datatype Rewriting = Untouched | FileTape | PlainTape

  // The instrumenter compares a site's joined texts. A method descriptor begins with a parenthesis
  // and the texts compared hold just one, so a joined text determines its parts.

  predicate FileRead(site: Site) {
    && site.opcode == InvokeStatic && site.owner == "java/nio/file/Files"
    && (|| (site.name == "readAllBytes" && site.descriptor == "(Ljava/nio/file/Path;)[B")
        || (site.name == "readString"
            && (|| site.descriptor == "(Ljava/nio/file/Path;)Ljava/lang/String;"
                || site.descriptor == "(Ljava/nio/file/Path;Ljava/nio/charset/Charset;)Ljava/lang/String;")))
  }

  predicate ClockOrUuid(site: Site) {
    && site.opcode == InvokeStatic
    && (|| (site.owner == "java/lang/System" && site.name == "currentTimeMillis" && site.descriptor == "()J")
        || (site.owner == "java/lang/System" && site.name == "nanoTime" && site.descriptor == "()J")
        || (site.owner == "java/util/UUID" && site.name == "randomUUID" && site.descriptor == "()Ljava/util/UUID;")
        || (site.owner == "java/lang/Math" && site.name == "random" && site.descriptor == "()D"))
  }

  predicate DrawsNext(name: string, descriptor: string) {
    || (name == "nextInt" && (descriptor == "()I" || descriptor == "(I)I"))
    || (name == "nextLong" && (descriptor == "()J" || descriptor == "(J)J"))
    || (name == "nextBoolean" && descriptor == "()Z")
    || (name == "nextFloat" && descriptor == "()F")
    || (name == "nextDouble" && descriptor == "()D")
    || (name == "nextGaussian" && descriptor == "()D")
    || (name == "nextBytes" && descriptor == "([B)V")
  }

  predicate JavaRandom(site: Site) {
    && site.opcode == InvokeVirtual
    && (|| site.owner == "java/util/Random" || site.owner == "java/security/SecureRandom"
        || site.owner == "java/util/concurrent/ThreadLocalRandom")
    && DrawsNext(site.name, site.descriptor)
  }

  predicate TimeNow(site: Site) {
    && site.opcode == InvokeStatic && site.name == "now"
    && (|| (site.owner == "java/time/Instant" && site.descriptor == "()Ljava/time/Instant;")
        || (site.owner == "java/time/LocalDate" && site.descriptor == "()Ljava/time/LocalDate;")
        || (site.owner == "java/time/LocalDateTime" && site.descriptor == "()Ljava/time/LocalDateTime;"))
  }

  function Rewrite(site: Site, captureFileIo: bool): Rewriting {
    if captureFileIo && FileRead(site) then FileTape
    else if ClockOrUuid(site) || JavaRandom(site) || TimeNow(site) then PlainTape
    else Untouched
  }

  lemma DrawsAreNext(name: string, descriptor: string)
    requires DrawsNext(name, descriptor)
    ensures StartsWith(name, "next")
  {
  }

  lemma FilesAreNotNondeterministic(name: string)
    ensures !Nondeterministic("java/nio/file/Files", name)
  {
    var owner := "java/nio/file/Files";
    assert owner[5] == 'n' && |owner| == 19;
    assert !StartsWith(owner, "java/time/") by { assert "java/time/"[5] == 't'; }
    assert !RandomSource(owner) by {
      assert "java/util/Random"[5] == 'u' && "java/util/random/"[5] == 'u';
    }
  }

  /** Which call sites are rewritten, exactly. File reads go to the tape when they are captured at all;
      clocks, random UUIDs and `Math.random` always do, and so do the plain draws of the three
      random generators. Everything else stays as it is, whatever it is called. */
  lemma {:induction false} RewrittenExactly(site: Site, captureFileIo: bool)
    ensures Rewrite(site, captureFileIo).FileTape? <==>
      && captureFileIo
      && site in [
           Site(InvokeStatic, "java/nio/file/Files", "readAllBytes", "(Ljava/nio/file/Path;)[B"),
           Site(InvokeStatic, "java/nio/file/Files", "readString", "(Ljava/nio/file/Path;)Ljava/lang/String;"),
           Site(InvokeStatic, "java/nio/file/Files", "readString",
                "(Ljava/nio/file/Path;Ljava/nio/charset/Charset;)Ljava/lang/String;")]
    ensures Rewrite(site, captureFileIo).PlainTape? <==>
      || site in [
           Site(InvokeStatic, "java/lang/System", "currentTimeMillis", "()J"),
           Site(InvokeStatic, "java/lang/System", "nanoTime", "()J"),
           Site(InvokeStatic, "java/util/UUID", "randomUUID", "()Ljava/util/UUID;"),
           Site(InvokeStatic, "java/lang/Math", "random", "()D"),
           Site(InvokeStatic, "java/time/Instant", "now", "()Ljava/time/Instant;"),
           Site(InvokeStatic, "java/time/LocalDate", "now", "()Ljava/time/LocalDate;"),
           Site(InvokeStatic, "java/time/LocalDateTime", "now", "()Ljava/time/LocalDateTime;")]
      || (&& site.opcode == InvokeVirtual
          && site.owner in ["java/util/Random", "java/security/SecureRandom", "java/util/concurrent/ThreadLocalRandom"]
          && (site.name, site.descriptor) in [
               ("nextInt", "()I"), ("nextInt", "(I)I"), ("nextLong", "()J"), ("nextLong", "(J)J"), ("nextBoolean", "()Z"),
               ("nextFloat", "()F"), ("nextDouble", "()D"), ("nextGaussian", "()D"), ("nextBytes", "([B)V")])
  {
    assert "java/nio/file/Files"[5] == 'n';
  }

  /** Every rewritten call is one the daemon counts, and on the right side. */
  lemma RewrittenIsCounted(site: Site, captureFileIo: bool)
    ensures Rewrite(site, captureFileIo).FileTape? ==>
      SupportedFile(site.owner, site.name) && !Nondeterministic(site.owner, site.name)
    ensures Rewrite(site, captureFileIo).PlainTape? ==>
      Nondeterministic(site.owner, site.name) && !SupportedFile(site.owner, site.name)
  {
    FilesAreNotNondeterministic(site.name);
    if JavaRandom(site) {
      DrawsAreNext(site.name, site.descriptor);
      assert "java/util/Random" <= "java/util/Random";
    }
    if TimeNow(site) {
      assert StartsWith(site.owner, "java/time/");
    }
  }
}
