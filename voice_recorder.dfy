/**
 * The voice recorder: three modes (recording, recorded and waiting to be
 * sent, idle), a one-second timer while recording, and the `m:ss` label. The
 * microphone and the browser's recorder are replaced by what they report:
 * whether access was granted, the data chunks, and the recorder's own state.
 */
module VoiceRecorder {
  import opened Options
  import opened Text

  /** A recorded chunk of audio data; only its size matters here. */
  datatype Chunk = Chunk(size: nat)

  datatype RecorderState = Inactive | Recording

  datatype Mode = RecordingMode | RecordedMode | IdleMode

  class Recorder {
    var isRecording: bool
    var recordingTime: nat
    var audioBlob: Option<seq<Chunk>>
    var chunks: seq<Chunk>
    var recorder: RecorderState
    var timerRunning: bool

    /** The component's flag agrees with the browser recorder and the timer. */
    predicate Valid()
      reads this
    {
      (isRecording <==> recorder == Recording) && (timerRunning <==> isRecording)
    }

    constructor()
      ensures Valid() && !isRecording && recordingTime == 0 && audioBlob.None? && chunks == []
      ensures Mode() == IdleMode
    {
      isRecording := false;
      recordingTime := 0;
      audioBlob := None;
      chunks := [];
      recorder := Inactive;
      timerRunning := false;
    }

    /** The mode the component shows: exactly one of the three. */
    function Mode(): (m: Mode)
      reads this
      ensures m == RecordingMode <==> isRecording
      ensures m == RecordedMode <==> !isRecording && audioBlob.Some?
      ensures m == IdleMode <==> !isRecording && audioBlob.None?
    {
      if isRecording then RecordingMode else if audioBlob.Some? then RecordedMode else IdleMode
    }

    /** The time label, shown while recording and while a recording waits to be sent. */
    function Label(): (r: Option<string>)
      reads this
      ensures r.None? <==> Mode() == IdleMode
      ensures r.Some? ==> r.value == FormatMinSec(recordingTime)
    {
      if Mode() == IdleMode then None else Some(FormatMinSec(recordingTime))
    }

    /** `startRecording`: when microphone access is refused nothing changes. */
    method Start(granted: bool)
      requires Valid()
      modifies this
      ensures Valid()
      ensures !granted ==>
                isRecording == old(isRecording) && recordingTime == old(recordingTime)
                && chunks == old(chunks) && recorder == old(recorder)
      ensures granted ==> isRecording && recordingTime == 0 && chunks == [] && recorder == Recording
      ensures audioBlob == old(audioBlob)
    {
      if granted {
        chunks := [];
        recorder := Recording;
        isRecording := true;
        recordingTime := 0;
        timerRunning := true;
      }
    }

    /** `ondataavailable`: non-empty chunks are kept. */
    method DataAvailable(c: Chunk)
      requires Valid()
      modifies this
      ensures Valid()
      ensures chunks == if c.size > 0 then old(chunks) + [c] else old(chunks)
      ensures isRecording == old(isRecording) && recordingTime == old(recordingTime) && audioBlob == old(audioBlob)
    {
      if c.size > 0 {
        chunks := chunks + [c];
      }
    }

    /** The one-second interval: each tick adds exactly one second while the timer runs. */
    method Tick()
      requires Valid()
      modifies this
      ensures Valid()
      ensures recordingTime == if old(timerRunning) then old(recordingTime) + 1 else old(recordingTime)
      ensures isRecording == old(isRecording) && audioBlob == old(audioBlob) && chunks == old(chunks)
    {
      if timerRunning {
        recordingTime := recordingTime + 1;
      }
    }

    /**
     * `stopRecording`: only while the recorder records. It stops the timer and
     * the recorder, whose `onstop` turns the chunks into the blob.
     */
    method Stop()
      requires Valid()
      modifies this
      ensures Valid()
      ensures old(recorder) != Recording ==>
                isRecording == old(isRecording) && audioBlob == old(audioBlob) && recorder == old(recorder)
      ensures old(recorder) == Recording ==> !isRecording && recorder == Inactive && audioBlob == Some(old(chunks))
      ensures recordingTime == old(recordingTime) && chunks == old(chunks)
    {
      if recorder == Recording {
        recorder := Inactive;
        audioBlob := Some(chunks);
        isRecording := false;
        timerRunning := false;
      }
    }

    /** `handleSend`: without a blob nothing happens; otherwise the duration is reported and both are reset. */
    method Send() returns (reported: Option<nat>)
      requires Valid()
      modifies this
      ensures Valid()
      ensures old(audioBlob).None? ==> reported.None? && recordingTime == old(recordingTime) && audioBlob.None?
      ensures old(audioBlob).Some? ==> reported == Some(old(recordingTime)) && recordingTime == 0 && audioBlob.None?
      ensures isRecording == old(isRecording) && chunks == old(chunks)
    {
      if audioBlob.Some? {
        reported := Some(recordingTime);
        audioBlob := None;
        recordingTime := 0;
      } else {
        reported := None;
      }
    }
  }

  /**
   * A whole session from the idle mode: start, `seconds` ticks, stop and
   * send. The duration reported is the number of ticks, and the recorder is
   * idle again afterwards.
   */
  method Session(seconds: nat) returns (reported: Option<nat>, shown: Option<string>, after: Mode)
    ensures reported == Some(seconds)
    ensures shown == Some(FormatMinSec(seconds))
    ensures after == IdleMode
  {
    var r := new Recorder();
    r.Start(true);
    var i := 0;
    while i < seconds
      invariant 0 <= i <= seconds
      invariant r.Valid() && r.isRecording && r.recordingTime == i && r.audioBlob.None?
    {
      r.Tick();
      i := i + 1;
    }
    r.Stop();
    shown := r.Label();
    reported := r.Send();
    after := r.Mode();
  }
}
